/** The incremental parser of a sandbox event stream. Recognising a marker and decoding its JSON is a parameter;
    everything that depends on the order of events is here. */
module SandboxStream {
  import opened Wrappers
  import opened SandboxFrames
  import opened SandboxResult

  datatype Version = V3 | V4 | V5

  datatype Kind = ReactionKind | FrameKind | CompletedKind | ErrorKind | StaleKind

  datatype Binding = Binding(owner: string, actor: string, chat: string, target: string, revision: nat)

  /** The body of an event; `Malformed` has a known kind but unusable fields. */
  datatype Body =
    | Reaction(binding: Binding, emoji: string)
    | Frame(part: Part)
    | Finished(result: TurnResult)
    | Error(code: string)
    | Stale(revision: nat)
    | Malformed(kind: Kind)

  datatype Message = Message(version: Version, sequence: nat, body: Body, canonical: string)

  /** What a line turns out to be: no marker or telemetry, an undecodable event, or an event for this request. */
  datatype Reading = Noise | Bad | Event(message: Message)

  datatype Config = Config(budget: Budget, textOk: string -> bool, read: string -> Reading, binding: Option<Binding>)

  datatype Parser = Parser(expected: nat, version: Option<Version>, terminal: bool, seen: map<nat, string>, frames: seq<Part>, reacted: bool)

  const FRESH := Parser(0, None, false, map[], [], false)

  function KindOf(body: Body): Kind {
    match body
    case Reaction(_, _) => ReactionKind
    case Frame(_) => FrameKind
    case Finished(_) => CompletedKind
    case Error(_) => ErrorKind
    case Stale(_) => StaleKind
    case Malformed(kind) => kind
  }

  /** The event types each protocol version knows. */
  predicate Allowed(version: Version, kind: Kind) {
    match version
    case V3 => kind != ReactionKind && kind != StaleKind
    case V4 => kind != StaleKind
    case V5 => true
  }

  predicate TerminalBody(body: Body) {
    body.Finished? || body.Error? || body.Stale?
  }

  /** The checks on an event that is next in sequence, and what it leaves behind. */
  ghost function Accept(c: Config, p: Parser, m: Message): Result<Parser> {
    match m.body
    case Malformed(_) => Raised
    case Reaction(binding, _) =>
      if (c.binding.Some? && c.binding.value != binding) || m.version == V3 || p.reacted || p.frames != [] then Raised
      else Ok(p.(reacted := true))
    case Frame(part) => if !c.textOk(part.text) || !MayFollow(p.frames, part, c.budget) then Raised else Ok(p.(frames := p.frames + [part]))
    case Finished(result) => if !Sound(result, c.budget, c.textOk) || result.parts != p.frames then Raised else Ok(p.(terminal := true))
    case Error(_) => Ok(p.(terminal := true))
    case Stale(_) => if m.version == V5 && m.sequence != 0 then Raised else Ok(p.(terminal := true))
  }

  /** One line: the new state and the event it yields, if any. */
  ghost function Process(c: Config, p: Parser, line: string): Result<(Parser, Option<Message>)> {
    match c.read(line)
    case Noise => Ok((p, None))
    case Bad => Raised
    case Event(m) =>
      if !Allowed(m.version, KindOf(m.body)) then Raised
      else if p.version.Some? && p.version.value != m.version then Raised
      else
        var p1 := p.(version := Some(m.version));
        if m.sequence in p.seen then if p.seen[m.sequence] == m.canonical then Ok((p1, None)) else Raised
        else if p.terminal || m.sequence != p.expected then Raised
        else match Accept(c, p1, m)
          case Raised => Raised
          case Ok(p2) => Ok((p2.(seen := p2.seen[m.sequence := m.canonical], expected := p2.expected + 1), Some(m)))
  }

  /** The events yielded before the end or the raise, and how it ended. */
  datatype Run = Run(events: seq<Message>, end: Result<Parser>)

  function Yielded(e: Option<Message>): seq<Message> {
    if e.Some? then [e.value] else []
  }

  ghost function RunLines(c: Config, p: Parser, lines: seq<string>): Run
    decreases |lines|
  {
    if lines == [] then Run([], Ok(p))
    else match Process(c, p, lines[0])
      case Raised => Run([], Raised)
      case Ok(step) =>
        var rest := RunLines(c, step.0, lines[1..]);
        Run(Yielded(step.1) + rest.events, rest.end)
  }

  ghost function Then(c: Config, r: Run, lines: seq<string>): Run {
    if r.end.Raised? then r
    else
      var rest := RunLines(c, r.end.value, lines);
      Run(r.events + rest.events, rest.end)
  }

  lemma {:induction false} RunAppend(c: Config, p: Parser, a: seq<string>, b: seq<string>)
    ensures RunLines(c, p, a + b) == Then(c, RunLines(c, p, a), b)
    decreases |a|
  {
    hide Process;
    if a == [] {
      assert a + b == b;
    } else {
      assert (a + b)[1..] == a[1..] + b && (a + b)[0] == a[0];
      match Process(c, p, a[0]) {
        case Raised =>
        case Ok(step) =>
          RunAppend(c, step.0, a[1..], b);
          assert Yielded(step.1) + RunLines(c, step.0, a[1..] + b).events == RunLines(c, p, a + b).events;
      }
    }
  }

  // ----- Lines and chunks -----

  /** `rstrip("\r")`. */
  function Strip(line: string): string
    decreases |line|
  {
    if line != "" && line[|line| - 1] == '\r' then Strip(line[..|line| - 1]) else line
  }

  function Newline(text: string, start: nat): (r: Option<nat>)
    requires start <= |text|
    ensures r.Some? ==> start <= r.value < |text| && text[r.value] == '\n' && forall i | start <= i < r.value :: text[i] != '\n'
    ensures r.None? ==> forall i | start <= i < |text| :: text[i] != '\n'
    decreases |text| - start
  {
    if start == |text| then None else if text[start] == '\n' then Some(start) else Newline(text, start + 1)
  }

  /** The complete lines of a text, stripped, and what follows the last newline. */
  datatype Pieces = Pieces(lines: seq<string>, rest: string)

  function Cut(text: string): Pieces
    decreases |text|
  {
    match Newline(text, 0)
    case None => Pieces([], text)
    case Some(i) =>
      var after := Cut(text[i + 1..]);
      Pieces([Strip(text[..i])] + after.lines, after.rest)
  }

  lemma NewlineAppend(a: string, b: string)
    ensures Newline(a, 0).Some? ==> Newline(a + b, 0) == Newline(a, 0)
  {
    var i := Newline(a, 0);
    if i.Some? {
      assert (a + b)[i.value] == '\n';
      assert forall k | 0 <= k < i.value :: (a + b)[k] == a[k];
    }
  }

  lemma CutAt(text: string, i: nat)
    requires Newline(text, 0) == Some(i)
    ensures Cut(text) == Pieces([Strip(text[..i])] + Cut(text[i + 1..]).lines, Cut(text[i + 1..]).rest)
  {
  }

  lemma Regroup<T>(x: seq<T>, a: seq<T>, b: seq<T>)
    ensures x + (a + b) == (x + a) + b
  {
  }

  /** Cutting a text that arrives in two parts is cutting the first, then what it left over with the second. */
  lemma {:induction false} CutAppend(a: string, b: string)
    ensures Cut(a + b) == Pieces(Cut(a).lines + Cut(Cut(a).rest + b).lines, Cut(Cut(a).rest + b).rest)
    decreases |a|
  {
    if Newline(a, 0).None? {
      CutWhole(a, b);
    } else {
      hide *;
      var i := Newline(a, 0).value;
      var r := a[i + 1..];
      NewlineAppend(a, b);
      CutAt(a, i);
      CutAt(a + b, i);
      assert (a + b)[i + 1..] == r + b && (a + b)[..i] == a[..i];
      CutAppend(r, b);
      Regroup([Strip(a[..i])], Cut(r).lines, Cut(Cut(r).rest + b).lines);
    }
  }

  lemma CutNone(text: string)
    requires Newline(text, 0).None?
    ensures Cut(text) == Pieces([], text)
  {
  }

  lemma CutWhole(a: string, b: string)
    requires Newline(a, 0).None?
    ensures Cut(a + b) == Pieces(Cut(a).lines + Cut(Cut(a).rest + b).lines, Cut(Cut(a).rest + b).rest)
  {
    hide *;
    CutNone(a);
    assert [] + Cut(a + b).lines == Cut(a + b).lines;
  }

  /** All lines of a whole stream: a last line without a newline counts unless it is empty. */
  function AllLines(p: Pieces): seq<string> {
    if p.rest == "" then p.lines else p.lines + [Strip(p.rest)]
  }

  datatype Outcome = Outcome(events: seq<Message>, accepted: bool)

  ghost function Close(r: Run): Outcome {
    Outcome(r.events, r.end.Ok? && r.end.value.terminal)
  }

  /** What the parser makes of a whole text. */
  ghost function Parse(c: Config, text: string): Outcome {
    Close(RunLines(c, FRESH, AllLines(Cut(text))))
  }

  function Flatten(chunks: seq<string>): string {
    if chunks == [] then "" else chunks[0] + Flatten(chunks[1..])
  }

  // ----- What the parser knows after an accepted prefix -----

  function FramesOf(events: seq<Message>): seq<Part>
    decreases |events|
  {
    if events == [] then []
    else
      var last := events[|events| - 1];
      FramesOf(events[..|events| - 1]) + if last.body.Frame? then [last.body.part] else []
  }

  ghost predicate Sequenced(p: Parser, events: seq<Message>) {
    && p.expected == |events|
    && (forall i | 0 <= i < |events| :: events[i].sequence == i)
    && (forall k: nat :: k in p.seen <==> k < |events|)
    && (forall i | 0 <= i < |events| :: p.version == Some(events[i].version))
  }

  ghost predicate Ended(c: Config, p: Parser, events: seq<Message>) {
    && (forall i | 0 <= i < |events| - 1 :: !TerminalBody(events[i].body))
    && (p.terminal <==> events != [] && TerminalBody(events[|events| - 1].body))
    && (p.terminal && events[|events| - 1].body.Finished? ==>
          Sound(events[|events| - 1].body.result, c.budget, c.textOk) && events[|events| - 1].body.result.parts == p.frames)
  }

  ghost predicate Arranged(c: Config, p: Parser, events: seq<Message>) {
    && p.frames == FramesOf(events) && Streamed(p.frames, c.budget)
    && (p.reacted <==> exists i :: 0 <= i < |events| && events[i].body.Reaction?)
    && ReactionsFirst(events)
  }

  /** The state reflects exactly the events yielded so far. */
  ghost predicate Reflects(c: Config, p: Parser, events: seq<Message>) {
    Sequenced(p, events) && Ended(c, p, events) && Arranged(c, p, events)
  }

  /** At most one reaction, and none after a frame. */
  ghost predicate ReactionsFirst(events: seq<Message>) {
    forall i, j | 0 <= i < |events| && 0 <= j < |events| && events[j].body.Reaction? ::
      (events[i].body.Reaction? ==> i == j) && (events[i].body.Frame? ==> j < i)
  }

  lemma FramesAppend(events: seq<Message>, m: Message)
    ensures FramesOf(events + [m]) == FramesOf(events) + if m.body.Frame? then [m.body.part] else []
  {
    assert (events + [m])[..|events|] == events;
  }

  lemma {:induction false} FramesNonEmpty(events: seq<Message>)
    ensures FramesOf(events) == [] <==> forall i | 0 <= i < |events| :: !events[i].body.Frame?
    decreases |events|
  {
    if events != [] {
      FramesNonEmpty(events[..|events| - 1]);
      assert forall i | 0 <= i < |events| - 1 :: events[..|events| - 1][i] == events[i];
    }
  }

  lemma StreamedAppend(parts: seq<Part>, part: Part, budget: Budget)
    requires Streamed(parts, budget) && MayFollow(parts, part, budget)
    ensures Streamed(parts + [part], budget)
  {
    var all := parts + [part];
    forall i | 0 <= i < |all| ensures MayFollow(all[..i], all[i], budget) {
      if i < |parts| {
        assert all[..i] == parts[..i];
      } else {
        assert all[..i] == parts;
      }
    }
  }

  lemma ReactionsAppend(events: seq<Message>, m: Message)
    requires ReactionsFirst(events)
    requires m.body.Reaction? ==> forall i | 0 <= i < |events| :: !events[i].body.Reaction? && !events[i].body.Frame?
    ensures ReactionsFirst(events + [m])
  {
  }

  lemma AcceptSequenced(p: Parser, p2: Parser, events: seq<Message>, m: Message)
    requires Sequenced(p, events) && m.sequence == p.expected && p.version == Some(m.version)
    requires p2.expected == p.expected && p2.seen == p.seen && p2.version == p.version
    ensures Sequenced(p2.(seen := p2.seen[m.sequence := m.canonical], expected := p2.expected + 1), events + [m])
  {
  }

  lemma AcceptEnded(c: Config, p: Parser, events: seq<Message>, m: Message)
    requires Ended(c, p, events) && !p.terminal && Accept(c, p, m).Ok?
    ensures Ended(c, Accept(c, p, m).value, events + [m])
  {
    hide Sound;
    hide MayFollow;
  }

  lemma AcceptArranged(c: Config, p: Parser, events: seq<Message>, m: Message)
    requires Arranged(c, p, events) && Accept(c, p, m).Ok?
    ensures Arranged(c, Accept(c, p, m).value, events + [m])
  {
    hide Sound;
    hide MayFollow;
    hide Streamed;
    FramesAppend(events, m);
    FramesNonEmpty(events);
    ReactionsAppend(events, m);
    if m.body.Frame? {
      StreamedAppend(p.frames, m.body.part, c.budget);
    }
    hide FramesOf;
    hide ReactionsFirst;
    var all := events + [m];
    assert forall i | 0 <= i < |events| :: all[i] == events[i];
    assert all[|events|] == m;
  }

  /** An accepted event leaves the state reflecting it as well. */
  lemma AcceptReflects(c: Config, p: Parser, events: seq<Message>, m: Message)
    requires Reflects(c, p, events) && !p.terminal && m.sequence == p.expected && p.version == Some(m.version)
    requires Accept(c, p, m).Ok?
    ensures var p2 := Accept(c, p, m).value;
      Reflects(c, p2.(seen := p2.seen[m.sequence := m.canonical], expected := p2.expected + 1), events + [m])
  {
    var p2 := Accept(c, p, m).value;
    AcceptKeepsBooks(c, p, m);
    AcceptSequenced(p, p2, events, m);
    AcceptEnded(c, p, events, m);
    AcceptArranged(c, p, events, m);
    hide Accept;
    hide Sequenced;
    hide Sound;
    hide Streamed;
    hide FramesOf;
    hide ReactionsFirst;
    hide TerminalBody;
  }

  lemma AcceptKeepsBooks(c: Config, p: Parser, m: Message)
    requires Accept(c, p, m).Ok?
    ensures var p2 := Accept(c, p, m).value; p2.expected == p.expected && p2.seen == p.seen && p2.version == p.version
  {
  }

  lemma VersionReflects(c: Config, p: Parser, events: seq<Message>, version: Version)
    requires Reflects(c, p, events) && (p.version.Some? ==> p.version.value == version)
    ensures Reflects(c, p.(version := Some(version)), events)
  {
  }

  lemma ProcessReflects(c: Config, p: Parser, events: seq<Message>, line: string)
    requires Reflects(c, p, events) && Process(c, p, line).Ok?
    ensures Reflects(c, Process(c, p, line).value.0, events + Yielded(Process(c, p, line).value.1))
  {
    hide Accept;
    match c.read(line) {
      case Noise => assert events + [] == events;
      case Event(m) =>
        VersionReflects(c, p, events, m.version);
        assert events + [] == events;
        if m.sequence !in p.seen {
          assert !p.terminal && m.sequence == p.expected;
          hide Reflects;
          AcceptReflects(c, p.(version := Some(m.version)), events, m);
        }
    }
    hide Reflects;
  }

  lemma {:induction false} RunReflects(c: Config, p: Parser, events: seq<Message>, lines: seq<string>)
    requires Reflects(c, p, events)
    ensures var r := RunLines(c, p, lines); r.end.Ok? ==> Reflects(c, r.end.value, events + r.events)
    decreases |lines|
  {
    hide Reflects;
    hide Process;
    if lines == [] {
      assert events + [] == events;
    } else {
      match Process(c, p, lines[0]) {
        case Raised =>
        case Ok(step) =>
          ProcessReflects(c, p, events, lines[0]);
          RunReflects(c, step.0, events + Yielded(step.1), lines[1..]);
          var rest := RunLines(c, step.0, lines[1..]);
          assert (events + Yielded(step.1)) + rest.events == events + (Yielded(step.1) + rest.events);
      }
    }
  }

  lemma FreshReflects(c: Config)
    ensures Reflects(c, FRESH, [])
  {
  }

  /** Sequences 0 to n-1 under one version, one terminal event and last; at most one reaction, before all frames;
      the frames in order and within budget; and a completed result that is sound and shows exactly those frames. */
  ghost predicate WellFormedStream(c: Config, events: seq<Message>) {
    && events != [] && (forall i | 0 <= i < |events| :: events[i].sequence == i && events[i].version == events[0].version)
    && (forall i | 0 <= i < |events| :: TerminalBody(events[i].body) <==> i == |events| - 1)
    && ReactionsFirst(events) && InOrder(FramesOf(events), c.budget)
    && var last := events[|events| - 1].body; last.Finished? ==> Sound(last.result, c.budget, c.textOk) && last.result.parts == FramesOf(events)
  }

  lemma TerminalIsWellFormed(c: Config, p: Parser, events: seq<Message>)
    requires Reflects(c, p, events) && p.terminal
    ensures WellFormedStream(c, events)
  {
    StreamedExactly(p.frames, c.budget);
    hide FramesOf;
    hide ReactionsFirst;
    hide InOrder;
    hide Streamed;
    hide Sound;
  }

  /** Any accepted text is a well-formed stream. */
  lemma AcceptedStreams(c: Config, text: string)
    ensures Parse(c, text).accepted ==> WellFormedStream(c, Parse(c, text).events)
  {
    var lines := AllLines(Cut(text));
    FreshReflects(c);
    RunReflects(c, FRESH, [], lines);
    hide RunLines;
    hide AllLines;
    hide Cut;
    hide Reflects;
    hide WellFormedStream;
    var r := RunLines(c, FRESH, lines);
    assert [] + r.events == r.events;
    if r.end.Ok? && r.end.value.terminal {
      TerminalIsWellFormed(c, r.end.value, r.events);
    }
  }

  // ----- Chunks do not matter -----

  /** Where a parser stands between chunks: what it yielded, its state, and the unfinished line. */
  datatype Feeding = Feeding(run: Run, buffer: string)

  ghost function Feed(c: Config, f: Feeding, chunk: string): Feeding {
    if f.run.end.Raised? then f
    else
      var pieces := Cut(f.buffer + chunk);
      Feeding(Then(c, f.run, pieces.lines), pieces.rest)
  }

  ghost function FeedAll(c: Config, f: Feeding, chunks: seq<string>): Feeding
    decreases |chunks|
  {
    if chunks == [] then f else FeedAll(c, Feed(c, f, chunks[0]), chunks[1..])
  }

  ghost function FinishFeeding(c: Config, f: Feeding): Outcome {
    Close(if f.buffer == "" then f.run else Then(c, f.run, [Strip(f.buffer)]))
  }

  const UNFED := Feeding(Run([], Ok(FRESH)), "")

  lemma ThenAppend(c: Config, r: Run, a: seq<string>, b: seq<string>)
    ensures Then(c, r, a + b) == Then(c, Then(c, r, a), b)
  {
    if r.end.Ok? {
      RunAppend(c, r.end.value, a, b);
      hide RunLines;
      var x := RunLines(c, r.end.value, a);
      if x.end.Ok? {
        Regroup(r.events, x.events, RunLines(c, x.end.value, b).events);
      }
    }
  }

  /** Where feeding stands after some chunks is what the text they make up would have given. */
  lemma FeedStands(c: Config, f: Feeding, text: string, chunk: string)
    requires f.run == Then(c, UNFED.run, Cut(text).lines) && (f.run.end.Ok? ==> f.buffer == Cut(text).rest)
    ensures var g := Feed(c, f, chunk);
      g.run == Then(c, UNFED.run, Cut(text + chunk).lines) && (g.run.end.Ok? ==> g.buffer == Cut(text + chunk).rest)
  {
    CutAppend(text, chunk);
    ThenAppend(c, UNFED.run, Cut(text).lines, Cut(Cut(text).rest + chunk).lines);
    hide Cut;
    hide RunLines;
  }

  lemma {:induction false} FeedAllStands(c: Config, f: Feeding, text: string, chunks: seq<string>)
    requires f.run == Then(c, UNFED.run, Cut(text).lines) && (f.run.end.Ok? ==> f.buffer == Cut(text).rest)
    ensures var g := FeedAll(c, f, chunks); var all := text + Flatten(chunks);
      g.run == Then(c, UNFED.run, Cut(all).lines) && (g.run.end.Ok? ==> g.buffer == Cut(all).rest)
    decreases |chunks|
  {
    hide Cut;
    hide Then;
    if chunks == [] {
      assert text + Flatten(chunks) == text;
    } else {
      FeedStands(c, f, text, chunks[0]);
      hide Feed;
      FeedAllStands(c, Feed(c, f, chunks[0]), text + chunks[0], chunks[1..]);
      assert text + chunks[0] + Flatten(chunks[1..]) == text + Flatten(chunks);
    }
  }

  /** The parser's events and its verdict depend only on the concatenated text, not on where chunks end. */
  lemma ChunksDoNotMatter(c: Config, chunks: seq<string>)
    ensures FinishFeeding(c, FeedAll(c, UNFED, chunks)) == Parse(c, Flatten(chunks))
  {
    var text := Flatten(chunks);
    var g := FeedAll(c, UNFED, chunks);
    assert Cut("") == Pieces([], "");
    assert UNFED.run == Then(c, UNFED.run, []);
    FeedAllStands(c, UNFED, "", chunks);
    assert "" + text == text;
    hide FeedAll;
    hide Flatten;
    var pieces := Cut(text);
    hide Cut;
    ThenAppend(c, UNFED.run, pieces.lines, [Strip(pieces.rest)]);
    ThenFresh(c, AllLines(pieces));
    ThenFresh(c, pieces.lines);
    hide Strip;
    hide RunLines;
  }

  lemma ThenFresh(c: Config, lines: seq<string>)
    ensures Then(c, UNFED.run, lines) == RunLines(c, FRESH, lines)
  {
    assert [] + RunLines(c, FRESH, lines).events == RunLines(c, FRESH, lines).events;
  }

  // ----- Duplicates do not matter -----

  /** Lines that would change nothing from here on: noise, or an event equal to one already seen, whatever its line. */
  ghost predicate Spent(c: Config, p: Parser, line: string) {
    match c.read(line)
    case Noise => true
    case Bad => false
    case Event(m) =>
      Allowed(m.version, KindOf(m.body)) && p.version == Some(m.version) && m.sequence in p.seen && p.seen[m.sequence] == m.canonical
  }

  /** A second line for the same event: the text again, or any line read as an event of a known type with the same
      version, sequence and canonical form. */
  ghost predicate Repeats(c: Config, line: string, copy: string) {
    copy == line || match (c.read(line), c.read(copy))
      case (Event(m), Event(n)) => n.version == m.version && n.sequence == m.sequence && n.canonical == m.canonical && Allowed(n.version, KindOf(n.body))
      case _ => false
  }

  lemma SpentAfter(c: Config, p: Parser, line: string, copy: string)
    requires Process(c, p, line).Ok? && Repeats(c, line, copy)
    ensures Spent(c, Process(c, p, line).value.0, copy)
  {
    hide Sound;
    hide MayFollow;
  }

  lemma SpentIsSkipped(c: Config, p: Parser, line: string)
    ensures Process(c, p, line) == Ok((p, None)) <==> Spent(c, p, line)
  {
    hide Sound;
    hide MayFollow;
  }

  lemma SpentStays(c: Config, p: Parser, line: string, other: string)
    requires Spent(c, p, line) && Process(c, p, other).Ok?
    ensures Spent(c, Process(c, p, other).value.0, line)
  {
    hide Sound;
    hide MayFollow;
  }

  lemma {:induction false} SpentThrough(c: Config, p: Parser, line: string, lines: seq<string>)
    requires Spent(c, p, line) && RunLines(c, p, lines).end.Ok?
    ensures Spent(c, RunLines(c, p, lines).end.value, line)
    decreases |lines|
  {
    hide Spent;
    hide Process;
    if lines != [] {
      SpentStays(c, p, line, lines[0]);
      SpentThrough(c, Process(c, p, lines[0]).value.0, line, lines[1..]);
    }
  }

  lemma RunOne(c: Config, p: Parser, line: string)
    ensures RunLines(c, p, [line]) == match Process(c, p, line) case Raised => Run([], Raised) case Ok(step) => Run(Yielded(step.1), Ok(step.0))
  {
    hide Process;
    assert [line][1..] == [];
  }

  lemma SpentOnce(c: Config, r: Run, line: string)
    ensures Then(c, r, [line]) == r <==> (r.end.Ok? ==> Spent(c, r.end.value, line))
  {
    if r.end.Ok? {
      SpentIsSkipped(c, r.end.value, line);
      RunOne(c, r.end.value, line);
      hide Spent;
      hide Process;
      hide RunLines;
      var one := RunLines(c, r.end.value, [line]);
      assert |r.events + one.events| == |r.events| + |one.events|;
      assert one.events == [] ==> r.events + one.events == r.events;
    }
  }

  /** A line changes nothing exactly when the lines before it raise or it is spent after them; then it changes neither
      the events nor the verdict of any continuation. */
  lemma SpentLinesDoNotMatter(c: Config, p: Parser, head: seq<string>, line: string, after: seq<string>)
    ensures var r := RunLines(c, p, head); var spent := r.end.Ok? ==> Spent(c, r.end.value, line);
      && (RunLines(c, p, head + [line]) == r <==> spent)
      && (spent ==> RunLines(c, p, head + [line] + after) == RunLines(c, p, head + after))
  {
    var r := RunLines(c, p, head);
    RunAppend(c, p, head, [line]);
    RunAppend(c, p, head + [line], after);
    RunAppend(c, p, head, after);
    SpentOnce(c, r, line);
    hide *;
  }

  /** Repeating any event that already occurred, on whatever line, changes neither the events nor the verdict. */
  lemma DuplicatesDoNotMatter(c: Config, p: Parser, before: seq<string>, line: string, between: seq<string>, copy: string, after: seq<string>)
    requires Repeats(c, line, copy)
    ensures RunLines(c, p, before + [line] + between + [copy] + after) == RunLines(c, p, before + [line] + between + after)
  {
    hide *;
    var head := before + [line] + between;
    if RunLines(c, p, head).end.Ok? {
      CopyIsSpent(c, p, before, line, between, copy);
    }
    SpentLinesDoNotMatter(c, p, head, copy, after);
  }

  lemma CopyIsSpent(c: Config, p: Parser, before: seq<string>, line: string, between: seq<string>, copy: string)
    requires RunLines(c, p, before + [line] + between).end.Ok? && Repeats(c, line, copy)
    ensures Spent(c, RunLines(c, p, before + [line] + between).end.value, copy)
  {
    hide Spent;
    hide Process;
    hide Repeats;
    RunAppend(c, p, before + [line], between);
    RunAppend(c, p, before, [line]);
    var q := RunLines(c, p, before).end.value;
    RunOne(c, q, line);
    SpentAfter(c, q, line, copy);
    SpentThrough(c, Process(c, q, line).value.0, copy, between);
  }
}
