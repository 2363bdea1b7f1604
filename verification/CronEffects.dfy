/** What each store call on runs, deliveries and jobs accepts, and the rows it leaves: said of stored columns. */
module CronEffects {
  import opened Wrappers
  import opened CronSchedule
  import opened CronLedger
  import opened CronInvariant
  import opened CronTransitions
  import opened CronHistory
  import opened CronGrowth
  import opened CronOwed

  // ----- Leased runs -----

  /** A worker with this token may still act on the run: its lease was not taken back, its job has not been edited
      since, and the job is active, or has ended with this run as its farewell. */
  predicate HasRun(l: Ledger, run: Id, token: Id) {
    && run in l.runs && l.runs[run].token == Some(token) && (l.runs[run].status.RunLeased? || l.runs[run].status.Executing?)
    && l.runs[run].job in l.jobs && var j := l.jobs[l.runs[run].job];
    j.revision == l.runs[run].revision && (j.status.Active? || (j.status.Ended? && l.runs[run].trigger.ByLifecycle?))
  }

  lemma HasRunHolds(l: Ledger, run: Id, token: Id)
    ensures Holds(l, run, token, true) <==> HasRun(l, run, token)
    ensures Holds(l, run, token, false) <==> HasRun(l, run, token) && l.runs[run].status.RunLeased?
  {
  }

  /** A lease is renewed while it is held; work begins once; a run put off waits again, its attempt not counted. */
  lemma LeaseCallsExactly(l: Ledger, run: Id, token: Id, until: int, delay: int, now: int)
    ensures RenewRunLease(l, run, token, until) ==
      if HasRun(l, run, token) then Committed(Ledger(l.jobs, l.runs[run := l.runs[run].(leaseUntil := Some(until))], l.deliveries), true)
      else Committed(l, false)
    ensures BeginRun(l, run, token, until) ==
      if HasRun(l, run, token) && l.runs[run].status.RunLeased?
      then Committed(Ledger(l.jobs, l.runs[run := l.runs[run].(status := Executing, leaseUntil := Some(until))], l.deliveries), true)
      else Committed(l, false)
    ensures DeferRun(l, run, token, delay, now) ==
      if delay < 1 || delay > 60 then Aborted
      else if HasRun(l, run, token)
      then Committed(Ledger(l.jobs, l.runs[run := l.runs[run].(status := RunRetryWait, availableAt := now + delay * 1_000_000, leaseUntil := None)], l.deliveries), true)
      else Committed(l, false)
  {
    HasRunHolds(l, run, token);
    hide Holds;
    hide HasRun;
  }

  // ----- Finishing a run -----

  predicate OnlySpace(s: string) {
    forall c | c in s :: c in " \t\n\r"
  }

  /** One to three frames of at most 4096 characters, none of them only white space. */
  predicate Deliverable(frames: seq<string>) {
    && 1 <= |frames| <= 3
    && forall i | 0 <= i < |frames| :: |frames[i]| <= 4096 && !OnlySpace(frames[i])
  }

  lemma BlankMeans(s: string)
    ensures Blank(s) <==> OnlySpace(s)
  {
    if Blank(s) {
      forall c | c in s ensures c in " \t\n\r" {
        var i :| 0 <= i < |s| && s[i] == c;
      }
    } else {
      var i :| 0 <= i < |s| && s[i] !in " \t\n\r";
      assert s[i] in s;
    }
  }

  lemma DeliverableIsValid(frames: seq<string>)
    ensures ValidFrames(frames) <==> Deliverable(frames)
  {
    hide Blank;
    hide OnlySpace;
    forall i | 0 <= i < |frames| ensures Blank(frames[i]) <==> OnlySpace(frames[i]) {
      BlankMeans(frames[i]);
    }
  }

  /** The run got exactly these texts as deliveries; all other deliveries are as they were. */
  ghost predicate Delivers(l: Ledger, l': Ledger, run: Id, texts: seq<string>, now: int)
    requires run in l.runs && l.runs[run].job in l.jobs
  {
    && (forall f: Frame | f.run == run :: f in l'.deliveries <==> f.sequence < |texts|)
    && (forall k: nat | k < |texts| :: CarriesText(l, l', run, Frame(run, k), texts[k], now))
    && (forall f: Frame | f.run != run :: (f in l'.deliveries <==> f in l.deliveries) && (f in l.deliveries ==> l'.deliveries[f] == l.deliveries[f]))
  }

  /** The job ends with this run: a single instant, or nothing may come before the end, or the cap is reached. */
  ghost predicate EndsWith(j: Job, due: int, successes: nat) {
    j.schedule.Once? || LastOne(j.schedule, due, j.endsAt) || (j.maxSuccesses.Some? && j.maxSuccesses.value <= successes)
  }

  lemma FramesAreAdded(l: Ledger, run: Id, texts: seq<string>, revision: nat, now: int)
    requires run in l.runs && l.runs[run].job in l.jobs && !HasFrames(l, run) && revision == l.runs[run].revision
    ensures var s := AddFrames(l, run, texts, DestinationOf(l.jobs[l.runs[run].job].content), revision, now);
      s.Committed? && Delivers(l, s.ledger, run, texts, now)
  {
    AddFramesShape(l, run, texts, DestinationOf(l.jobs[l.runs[run].job].content), revision, now);
    hide AddFrames;
  }

  lemma EndsMeans(j: Job, due: int, successes: nat)
    requires WellFormed(j.schedule)
    ensures Ends(j, due, successes).Ok? <==> NextOccurrence(j.schedule, due).Ok?
    ensures Ends(j, due, successes).Ok? ==> (Ends(j, due, successes).value <==> EndsWith(j, due, successes))
  {
    LastBeforeMeans(j.schedule, due, j.endsAt);
    hide LastBefore;
    hide NextOccurrence;
    hide LastOne;
  }

  /** Completing a run: without the lease nothing happens; undeliverable output raises, and so does a job whose next
      occurrence cannot be found; otherwise the frames become deliveries, a success is counted for a succeeded outcome
      only, and the job ends exactly when this was its last run. */
  lemma CompletionExactly(l: Ledger, run: Id, token: Id, outcome: RunOutcome, frames: seq<string>, now: int)
    requires Inv(l)
    ensures SchedulesValid(l)
    ensures var s := CompleteRun(l, run, token, outcome, frames, now);
      if !HasRun(l, run, token) then s == Committed(l, false)
      else
        var row := l.runs[run];
        var j := l.jobs[row.job];
        var successes := if outcome.SucceededOutcome? then j.successes + 1 else j.successes;
        if !Deliverable(frames) || NextOccurrence(j.schedule, row.scheduledFor).Raised? then s.Aborted?
        else
          && s.Committed? && s.value && Delivers(l, s.ledger, run, frames, now)
          && s.ledger.runs == l.runs[run := row.(status := Succeeded, output := Some(frames), outcome := Some(outcome), leaseUntil := None)]
          && s.ledger.jobs == l.jobs[row.job := j.(successes := successes, status := if EndsWith(j, row.scheduledFor, successes) then Ended else j.status)]
  {
    hide *;
    SoundSchedules(l);
    HasRunHolds(l, run, token);
    DeliverableIsValid(frames);
    CompletionRefuses(l, run, token, outcome, frames, now);
    if HasRun(l, run, token) {
      HeldRunFacts(l, run, token);
      var row := l.runs[run];
      var j := l.jobs[row.job];
      FramesAreAdded(l, run, frames, row.revision, now);
      EndsMeans(j, row.scheduledFor, if outcome.SucceededOutcome? then j.successes + 1 else j.successes);
      if Deliverable(frames) {
        CompletionCommits(l, run, token, outcome, frames, now);
        var s := CompleteRun(l, run, token, outcome, frames, now);
        if s.Committed? {
          DeliversAlike(l, AddFrames(l, run, frames, DestinationOf(j.content), row.revision, now).ledger, s.ledger, run, frames, now);
        }
      }
    }
  }

  lemma HeldRunFacts(l: Ledger, run: Id, token: Id)
    requires Inv(l) && HasRun(l, run, token)
    ensures run in l.runs && l.runs[run].job in l.jobs && !HasFrames(l, run) && WellFormed(l.jobs[l.runs[run].job].schedule)
    ensures l.jobs[l.runs[run].job].revision == l.runs[run].revision
  {
    assert RunOpen(l.runs[run].status);
    OpenRunHasNoFrames(l, run);
    hide HasFrames;
    hide WellFormed;
  }

  lemma DeliversAlike(l: Ledger, a: Ledger, b: Ledger, run: Id, texts: seq<string>, now: int)
    requires run in l.runs && l.runs[run].job in l.jobs && Delivers(l, a, run, texts, now) && b.deliveries == a.deliveries
    ensures Delivers(l, b, run, texts, now)
  {
  }

  lemma CompletionRefuses(l: Ledger, run: Id, token: Id, outcome: RunOutcome, frames: seq<string>, now: int)
    requires SchedulesValid(l)
    ensures !Holds(l, run, token, true) ==> CompleteRun(l, run, token, outcome, frames, now) == Committed(l, false)
    ensures Holds(l, run, token, true) && !ValidFrames(frames) ==> CompleteRun(l, run, token, outcome, frames, now).Aborted?
  {
    hide Holds;
    hide ValidFrames;
  }

  lemma CompletionCommits(l: Ledger, run: Id, token: Id, outcome: RunOutcome, frames: seq<string>, now: int)
    requires SchedulesValid(l) && Holds(l, run, token, true) && ValidFrames(frames)
    requires AddFrames(l, run, frames, DestinationOf(l.jobs[l.runs[run].job].content), l.runs[run].revision, now).Committed?
    ensures var row := l.runs[run]; var j := l.jobs[row.job]; var successes := if outcome.SucceededOutcome? then j.successes + 1 else j.successes;
      CompleteRun(l, run, token, outcome, frames, now) ==
        match Ends(j, row.scheduledFor, successes)
        case Raised => Aborted
        case Ok(ends) =>
          Committed(Ledger(l.jobs[row.job := j.(successes := successes, status := if ends then Ended else j.status)],
                           l.runs[run := row.(status := Succeeded, output := Some(frames), outcome := Some(outcome), leaseUntil := None)],
                           AddFrames(l, run, frames, DestinationOf(j.content), row.revision, now).ledger.deliveries), true)
  {
    hide Ends;
    hide AddFrames;
    hide ValidFrames;
    hide WellFormed;
    hide Permits;
  }

  // ----- Failing a run -----

  lemma Doubling(n: nat)
    ensures PowerOfTwo(0) == 1 && PowerOfTwo(n + 1) == 2 * PowerOfTwo(n)
  {
  }

  /** Failing a run: the first failure retries after a second, the second one after two, and the third is final. It
      leaves one notice in place of output, and the job ends exactly when it is a single instant or this was its last
      occurrence before the end; without that search nothing is committed. */
  lemma FailureExactly(l: Ledger, run: Id, token: Id, now: int)
    requires Inv(l)
    ensures SchedulesValid(l)
    ensures var s := FailRun(l, run, token, now);
      if !HasRun(l, run, token) then s == Committed(l, false)
      else
        var row := l.runs[run];
        var j := l.jobs[row.job];
        var failed := row.(attempts := row.attempts + 1, availableAt := now + PowerOfTwo(row.attempts) * 1_000_000, leaseUntil := None);
        if row.attempts < 2 then s == Committed(Ledger(l.jobs, l.runs[run := failed.(status := RunRetryWait)], l.deliveries), true)
        else if NextOccurrence(j.schedule, row.scheduledFor).Raised? then s.Aborted?
        else
          var ends := j.schedule.Once? || ((row.trigger.BySchedule? || row.trigger.ByCatchup?) && LastOne(j.schedule, row.scheduledFor, j.endsAt));
          && s.Committed? && s.value && Delivers(l, s.ledger, run, ["Scheduled task could not be completed."], now)
          && s.ledger.runs == l.runs[run := failed.(status := Failed, outcome := Some(FailedOutcome))]
          && s.ledger.jobs == l.jobs[row.job := j.(status := if ends then Ended else j.status)]
  {
    assert FAILURE_NOTICE == "Scheduled task could not be completed.";
    hide *;
    SoundSchedules(l);
    HasRunHolds(l, run, token);
    FailureCommits(l, run, token, now);
    if HasRun(l, run, token) {
      HeldRunFacts(l, run, token);
      var row := l.runs[run];
      var j := l.jobs[row.job];
      FramesAreAdded(l, run, [FAILURE_NOTICE], row.revision, now);
      LastBeforeMeans(j.schedule, row.scheduledFor, j.endsAt);
      var s := FailRun(l, run, token, now);
      if row.attempts >= 2 && s.Committed? {
        DeliversAlike(l, AddFrames(l, run, [FAILURE_NOTICE], DestinationOf(j.content), row.revision, now).ledger, s.ledger, run, [FAILURE_NOTICE], now);
      }
    }
  }

  lemma FailureCommits(l: Ledger, run: Id, token: Id, now: int)
    requires SchedulesValid(l)
    ensures !Holds(l, run, token, true) ==> FailRun(l, run, token, now) == Committed(l, false)
    ensures Holds(l, run, token, true) ==>
      var row := l.runs[run]; var j := l.jobs[row.job];
      var failed := row.(attempts := row.attempts + 1, availableAt := now + PowerOfTwo(row.attempts) * 1_000_000, leaseUntil := None);
      && (row.attempts < 2 ==> FailRun(l, run, token, now) == Committed(Ledger(l.jobs, l.runs[run := failed.(status := RunRetryWait)], l.deliveries), true))
      && (row.attempts >= 2 && AddFrames(l, run, [FAILURE_NOTICE], DestinationOf(j.content), j.revision, now).Committed? ==>
            FailRun(l, run, token, now) ==
              match LastBefore(j.schedule, row.scheduledFor, j.endsAt)
              case Raised => Aborted
              case Ok(last) =>
                var ends := j.schedule.Once? || ((row.trigger.BySchedule? || row.trigger.ByCatchup?) && last);
                Committed(Ledger(l.jobs[row.job := j.(status := if ends then Ended else j.status)],
                                 l.runs[run := failed.(status := Failed, outcome := Some(FailedOutcome))],
                                 AddFrames(l, run, [FAILURE_NOTICE], DestinationOf(j.content), j.revision, now).ledger.deliveries), true))
  {
    hide LastBefore;
    hide AddFrames;
    hide PowerOfTwo;
    hide WellFormed;
    hide Permits;
  }

  // ----- What is sent later -----

  /** What was completed is what is sent: through every later history a delivery of the run that may still be sent
      carries the text of its frame, to the destination the job had at the completion. */
  lemma DeliveriesKeepTheirText(l: Ledger, run: Id, token: Id, outcome: RunOutcome, frames: seq<string>, now: int, later: seq<Event>, k: nat)
    requires Inv(l) && HasRun(l, run, token) && k < |frames|
    ensures SchedulesValid(l) && Inv(Apply(l, Completing(run, token, outcome, frames, now)))
    ensures var l1 := Apply(l, Completing(run, token, outcome, frames, now)); var l2 := Play(l1, later); var f := Frame(run, k);
      l1 != l ==> f in l2.deliveries && var d := l2.deliveries[f];
        && d.jobRevision == l.runs[run].revision
        && (d.destination.Some? ==> l.jobs[l.runs[run].job].content.Content? && d.destination.value == l.jobs[l.runs[run].job].content.destination)
        && (d.status in [Pending, Leased, Sending, RetryWait] ==> d.output == Some(frames[k]))
  {
    hide *;
    SoundSchedules(l);
    HeldRunFacts(l, run, token);
    CompletionStores(l, run, token, outcome, frames, now, k);
    ApplyKeeps(l, Completing(run, token, outcome, frames, now));
    var l1 := Apply(l, Completing(run, token, outcome, frames, now));
    PlayGrows(l1, later);
    if l1 != l {
      TextStays(l, l1, Play(l1, later), run, Frame(run, k), frames[k], now);
    }
  }

  lemma CompletionStores(l: Ledger, run: Id, token: Id, outcome: RunOutcome, frames: seq<string>, now: int, k: nat)
    requires Inv(l) && SchedulesValid(l) && HasRun(l, run, token) && k < |frames|
    ensures var l1 := Apply(l, Completing(run, token, outcome, frames, now));
      l1 != l ==> CarriesText(l, l1, run, Frame(run, k), frames[k], now)
  {
    CompletionExactly(l, run, token, outcome, frames, now);
    hide Inv;
    hide CompleteRun;
    hide NextOccurrence;
    hide EndsWith;
    hide CarriesText;
    hide Deliverable;
    hide WellFormed;
  }

  lemma TextStays(l: Ledger, l1: Ledger, l2: Ledger, run: Id, f: Frame, text: string, now: int)
    requires run in l.runs && l.runs[run].job in l.jobs && CarriesText(l, l1, run, f, text, now) && Grows(l1, l2)
    ensures f in l2.deliveries && var d := l2.deliveries[f];
      && d.jobRevision == l.runs[run].revision
      && (d.destination.Some? ==> l.jobs[l.runs[run].job].content.Content? && d.destination.value == l.jobs[l.runs[run].job].content.destination)
      && (d.status in [Pending, Leased, Sending, RetryWait] ==> d.output == Some(text))
  {
    assert FrameGrows(l1.deliveries[f], l2.deliveries[f]);
    hide Grows;
  }
}
