/** The parser as it runs: one buffer, one state, chunk by chunk and line by line. */
module SandboxParser {
  import opened Wrappers
  import opened SandboxFrames
  import opened SandboxResult
  import opened SandboxStream

  class StreamParser {
    const config: Config
    var buffer: string
    var expected: nat
    var version: Option<Version>
    var terminal: bool
    var seen: map<nat, string>
    var frames: seq<Part>
    var reacted: bool

    function State(): Parser
      reads this
    {
      Parser(expected, version, terminal, seen, frames, reacted)
    }

    constructor (config: Config)
      ensures this.config == config && buffer == "" && State() == FRESH
    {
      this.config, buffer := config, "";
      expected, version, terminal, seen, frames, reacted := 0, None, false, map[], [], false;
    }

    /** The checks on an event that is next in sequence. */
    method AcceptNext(m: Message) returns (accepted: bool)
      modifies this`terminal, this`frames, this`reacted
      ensures accepted == Accept(config, old(State()), m).Ok?
      ensures accepted ==> State() == Accept(config, old(State()), m).value
    {
      hide Sound;
      hide MayFollow;
      match m.body {
        case Malformed(_) => return false;
        case Reaction(binding, _) =>
          if (config.binding.Some? && config.binding.value != binding) || m.version == V3 || reacted || frames != [] {
            return false;
          }
          reacted := true;
        case Frame(part) =>
          if !config.textOk(part.text) || !MayFollow(frames, part, config.budget) {
            return false;
          }
          frames := frames + [part];
        case Finished(result) =>
          var parts := ResultParts(result, config.budget, config.textOk);
          if parts.Raised? || parts.value != frames {
            return false;
          }
          terminal := true;
        case Error(_) => terminal := true;
        case Stale(_) =>
          if m.version == V5 && m.sequence != 0 {
            return false;
          }
          terminal := true;
      }
      return true;
    }

    /** One line; after a raise the parser is not used again. */
    method ProcessLine(line: string) returns (e: Result<Option<Message>>)
      modifies this`expected, this`version, this`terminal, this`seen, this`frames, this`reacted
      ensures match Process(config, old(State()), line)
              case Raised => e == Raised
              case Ok(step) => e == Ok(step.1) && State() == step.0
    {
      hide Accept;
      match config.read(line) {
        case Noise => return Ok(None);
        case Bad => return Raised;
        case Event(m) =>
          if !Allowed(m.version, KindOf(m.body)) {
            return Raised;
          }
          if version.None? {
            version := Some(m.version);
          } else if version.value != m.version {
            return Raised;
          }
          if m.sequence in seen {
            return if seen[m.sequence] == m.canonical then Ok(None) else Raised;
          }
          if terminal || m.sequence != expected {
            return Raised;
          }
          var accepted := AcceptNext(m);
          if !accepted {
            return Raised;
          }
          seen := seen[m.sequence := m.canonical];
          expected := expected + 1;
          return Ok(Some(m));
      }
    }

    /** One chunk: every line it completes. */
    method Consume(chunk: string, ghost f: Feeding) returns (events: seq<Message>, ok: bool)
      requires f.run.end == Ok(State()) && f.buffer == buffer
      modifies this
      ensures var g := Feed(config, f, chunk);
        && g.run.events == f.run.events + events && ok == g.run.end.Ok?
        && (ok ==> g.run.end == Ok(State()) && g.buffer == buffer)
    {
      hide Process;
      ghost var start, whole := State(), Cut(f.buffer + chunk);
      ghost var done: seq<string> := [];
      events := [];
      buffer := buffer + chunk;
      var newline := Newline(buffer, 0);
      assert [] + Cut(buffer).lines == whole.lines;
      while newline.Some?
        invariant newline == Newline(buffer, 0)
        invariant whole.lines == done + Cut(buffer).lines && whole.rest == Cut(buffer).rest
        invariant RunLines(config, start, done) == Run(events, Ok(State()))
        decreases |buffer|
      {
        var line := Strip(buffer[..newline.value]);
        CutAt(buffer, newline.value);
        buffer := buffer[newline.value + 1..];
        ghost var before := State();
        hide Cut;
        hide Strip;
        assert whole.lines == done + ([line] + Cut(buffer).lines);
        Regroup(done, [line], Cut(buffer).lines);
        var e := ProcessLine(line);
        OneMoreLine(config, start, done, line, Cut(buffer).lines);
        if e.Raised? {
          return events, false;
        }
        done := done + [line];
        events := events + Yielded(e.value);
        newline := Newline(buffer, 0);
      }
      CutNone(buffer);
      assert done + [] == done;
      return events, true;
    }
  }

  /** What one more line does to a run that was fine so far. */
  lemma OneMoreLine(c: Config, p: Parser, done: seq<string>, line: string, later: seq<string>)
    requires RunLines(c, p, done).end.Ok?
    ensures var r := RunLines(c, p, done); var step := Process(c, r.end.value, line);
      && (step.Ok? ==> RunLines(c, p, done + [line]) == Run(r.events + Yielded(step.value.1), Ok(step.value.0)))
      && (step.Raised? ==> RunLines(c, p, done + [line] + later) == Run(r.events, Raised))
  {
    hide Process;
    var r := RunLines(c, p, done);
    RunAppend(c, p, done, [line]);
    assert [line][1..] == [];
    var step := Process(c, r.end.value, line);
    if step.Raised? {
      assert done + [line] + later == done + ([line] + later);
      RunAppend(c, p, done, [line] + later);
      assert ([line] + later)[0] == line;
      assert r.events + [] == r.events;
    } else {
      assert RunLines(c, step.value.0, []) == Run([], Ok(step.value.0));
      assert Yielded(step.value.1) + [] == Yielded(step.value.1);
    }
  }

  /** `iter_event_markers`: the events and the verdict are those of the concatenated text. */
  method ParseStream(config: Config, chunks: seq<string>) returns (o: Outcome)
    ensures o == Parse(config, Flatten(chunks))
  {
    hide Process;
    hide Cut;
    hide Feed;
    var parser := new StreamParser(config);
    var events: seq<Message> := [];
    ghost var f := UNFED;
    ChunksDoNotMatter(config, chunks);
    for i := 0 to |chunks|
      invariant parser.config == config
      invariant f.run == Run(events, Ok(parser.State())) && f.buffer == parser.buffer
      invariant FeedAll(config, f, chunks[i..]) == FeedAll(config, UNFED, chunks)
    {
      assert chunks[i..][0] == chunks[i] && chunks[i..][1..] == chunks[i + 1..];
      var more, ok := parser.Consume(chunks[i], f);
      f := Feed(config, f, chunks[i]);
      events := events + more;
      if !ok {
        FedUp(config, f, chunks[i + 1..]);
        return Outcome(events, false);
      }
    }
    assert chunks[|chunks|..] == [];
    if parser.buffer != "" {
      var line := Strip(parser.buffer);
      LastLine(config, f, line);
      var e := parser.ProcessLine(line);
      if e.Raised? {
        return Outcome(events, false);
      }
      events := events + Yielded(e.value);
    }
    return Outcome(events, parser.terminal);
  }

  lemma {:induction false} FedUp(c: Config, f: Feeding, chunks: seq<string>)
    requires f.run.end.Raised?
    ensures FeedAll(c, f, chunks) == f && FinishFeeding(c, f) == Outcome(f.run.events, false)
    decreases |chunks|
  {
    if chunks != [] {
      FedUp(c, f, chunks[1..]);
    }
  }

  lemma LastLine(c: Config, f: Feeding, line: string)
    requires f.run.end.Ok?
    ensures var step := Process(c, f.run.end.value, line);
      Then(c, f.run, [line]) == if step.Raised? then Run(f.run.events, Raised) else Run(f.run.events + Yielded(step.value.1), Ok(step.value.0))
  {
    hide Process;
    assert [line][1..] == [];
    assert f.run.events + [] == f.run.events;
    var step := Process(c, f.run.end.value, line);
    if step.Ok? {
      assert RunLines(c, step.value.0, []) == Run([], Ok(step.value.0));
      assert Yielded(step.value.1) + [] == Yielded(step.value.1);
    }
  }
}
