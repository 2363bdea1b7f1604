/** A history in which recovery erases the content of an ended job under its open lifecycle run, and how it goes on:
    either that run waits again and blocks every claim, or what it delivers blocks every other delivery. */
module CronEarlyErasure {
  import opened Wrappers
  import opened CronSchedule
  import opened CronLedger
  import opened CronInvariant
  import opened CronTransitions
  import opened CronHistory
  import opened CronGrowth
  import opened CronDues
  import opened CronAccounting
  import opened CronRedaction
  import opened CronBlocked
  import opened CronErased

  const SECOND := 1_000_000

  /** Every hour from the first hour on, but only for ten seconds: no occurrence comes before the end. */
  const HOURLY := Job(0, Content("telegram:1", "summarise the day", []), Interval(3600 * SECOND, None), Some(10 * SECOND), None, Active, 1, 0, None, None, 0)

  const ENDED := HOURLY.(status := Ended, revision := 2)

  /** A manual run that fails three times. */
  const REQUESTED := Run(1, 0, Manually, 1, RunPending, 0, 0, None, None, None, None)

  function Leasing(row: Run, token: Id): Run {
    row.(status := RunLeased, leaseUntil := Some(60 * SECOND), token := Some(token))
  }

  const RETRIED := REQUESTED.(status := RunRetryWait, attempts := 1, availableAt := SECOND, token := Some(11))
  const RETRIED_AGAIN := REQUESTED.(status := RunRetryWait, attempts := 2, availableAt := 3 * SECOND, token := Some(12))
  const GIVEN_UP := REQUESTED.(status := RunStatus.Failed, attempts := 3, availableAt := 7 * SECOND, token := Some(13), outcome := Some(FailedOutcome))

  /** Its notice, whose send never reports back. */
  const NOTICE := Delivery(Pending, 0, 3 * SECOND, None, None, Some(FAILURE_NOTICE), 1, 3 * SECOND, Some("telegram:1"))
  const NOTICE_LEASED := NOTICE.(status := Leased, attempts := 1, token := Some(21), leaseUntil := Some(4 * SECOND))
  const NOTICE_SENDING := NOTICE_LEASED.(status := Sending)
  const NOTICE_UNKNOWN := NOTICE_LEASED.(status := Unknown, leaseUntil := None, updatedAt := 10 * SECOND)

  /** The run that tells of the end. */
  const FAREWELL := Run(1, 10 * SECOND, ByLifecycle, 2, RunLeased, 0, 10 * SECOND, Some(60 * SECOND), Some(31), None, None)

  function WithRun(row: Run): Ledger {
    Ledger(map[1 := HOURLY], map[5 := row], map[])
  }

  function WithNotice(d: Delivery): Ledger {
    Ledger(map[1 := HOURLY], map[5 := GIVEN_UP], map[Frame(5, 0) := d])
  }

  const ENDING := Ledger(map[1 := ENDED], map[5 := GIVEN_UP, 6 := FAREWELL], map[Frame(5, 0) := NOTICE_UNKNOWN])

  /** Create the job, ask for a run, fail it three times, let its notice stay unsettled, recover and claim at the end. */
  const HISTORY: seq<Event> := [
    Creating(1, HOURLY, 0), RequestingRun(0, 1, None, 5, 0),
    ClaimingRun([5], [1], 0, 60 * SECOND, 6, 11), Failing(5, 11, 0),
    ClaimingRun([5], [1], SECOND, 60 * SECOND, 6, 12), Failing(5, 12, SECOND),
    ClaimingRun([5], [1], 3 * SECOND, 60 * SECOND, 6, 13), Failing(5, 13, 3 * SECOND),
    ClaimingDelivery([Frame(5, 0)], 3 * SECOND, 4 * SECOND, 21), Admitting(Frame(5, 0), 21, 3 * SECOND),
    Recovering([5], [1], 10 * SECOND, 0), ClaimingRun([], [1], 10 * SECOND, 60 * SECOND, 6, 31)]

  const PATH: seq<Ledger> := [
    EMPTY, Ledger(map[1 := HOURLY], map[], map[]), WithRun(REQUESTED),
    WithRun(Leasing(REQUESTED, 11)), WithRun(RETRIED),
    WithRun(Leasing(RETRIED, 12)), WithRun(RETRIED_AGAIN),
    WithRun(Leasing(RETRIED_AGAIN, 13)), WithNotice(NOTICE),
    WithNotice(NOTICE_LEASED), WithNotice(NOTICE_SENDING),
    WithNotice(NOTICE_UNKNOWN), ENDING]

  // ----- The steps -----

  lemma Created()
    ensures Leads(EMPTY, Creating(1, HOURLY, 0), Ledger(map[1 := HOURLY], map[], map[]))
  {
    assert HOURLY.content.destination[0] == 't' && HOURLY.content.text[0] == 's';
  }

  lemma Asked()
    ensures Leads(Ledger(map[1 := HOURLY], map[], map[]), RequestingRun(0, 1, None, 5, 0), WithRun(REQUESTED))
  {
    var l := Ledger(map[1 := HOURLY], map[], map[]);
    assert !ActiveRun(l, 1) && !KeyTaken(l, 1, 0, Manually);
  }

  lemma Claimed(row: Run, now: int, token: Id)
    requires row.job == 1 && row.scheduledFor == 0 && row.trigger == Manually && row.revision == 1
    requires (row.status == RunPending || row.status == RunRetryWait) && row.availableAt <= now
    ensures Leads(WithRun(row), ClaimingRun([5], [1], now, 60 * SECOND, 6, token), WithRun(Leasing(row, token)))
  {
    assert WillEnd(HOURLY, 0, Manually).Ok?;
    assert ClaimPending(WithRun(row), [5], now, 60 * SECOND, token) == Committed(WithRun(Leasing(row, token)), Some(5)) by {
      assert WithRun(row).runs[5 := Leasing(row, token)] == map[5 := Leasing(row, token)];
    }
  }

  lemma Retried(row: Run, now: int, token: Id, row': Run)
    requires row == Leasing(row, token) && row.job == 1 && row.trigger == Manually && row.revision == 1 && row.attempts < 2
    requires row' == RetriedRun(row, now)
    ensures Leads(WithRun(row), Failing(5, token, now), WithRun(row'))
  {
    hide PowerOfTwo;
    assert WithRun(row).runs[5 := row'] == map[5 := row'];
  }

  lemma GivenUp()
    ensures Leads(WithRun(Leasing(RETRIED_AGAIN, 13)), Failing(5, 13, 3 * SECOND), WithNotice(NOTICE))
  {
    var l := WithRun(Leasing(RETRIED_AGAIN, 13));
    assert PowerOfTwo(2) == 4;
    assert [FAILURE_NOTICE][..0] == [];
    assert AddFrames(l, 5, [FAILURE_NOTICE], Some("telegram:1"), 1, 3 * SECOND) == Committed(WithRun(Leasing(RETRIED_AGAIN, 13)).(deliveries := map[Frame(5, 0) := NOTICE]), ());
    assert LastBefore(HOURLY.schedule, 0, HOURLY.endsAt) == Ok(true);
    hide AddFrames;
    hide LastBefore;
    var l' := Apply(l, Failing(5, 13, 3 * SECOND));
    assert l'.jobs == map[1 := HOURLY] && l'.runs == map[5 := GIVEN_UP];
  }

  lemma NoticeClaimed()
    ensures Leads(WithNotice(NOTICE), ClaimingDelivery([Frame(5, 0)], 3 * SECOND, 4 * SECOND, 21), WithNotice(NOTICE_LEASED))
  {
    assert WithNotice(NOTICE).deliveries[Frame(5, 0) := NOTICE_LEASED] == map[Frame(5, 0) := NOTICE_LEASED];
  }

  lemma NoticeAdmitted()
    ensures Leads(WithNotice(NOTICE_LEASED), Admitting(Frame(5, 0), 21, 3 * SECOND), WithNotice(NOTICE_SENDING))
  {
    assert WithNotice(NOTICE_LEASED).deliveries[Frame(5, 0) := NOTICE_SENDING] == map[Frame(5, 0) := NOTICE_SENDING];
  }

  lemma RowsRecover()
    ensures RecoverRows(WithNotice(NOTICE_SENDING), 10 * SECOND) == WithNotice(NOTICE_UNKNOWN)
  {
    var l, l' := WithNotice(NOTICE_SENDING), WithNotice(NOTICE_UNKNOWN);
    assert RecoverRows(l, 10 * SECOND).runs == l'.runs && RecoverRows(l, 10 * SECOND).deliveries == l'.deliveries;
  }

  lemma SendIsListed()
    ensures ListsExpiredSends(WithNotice(NOTICE_SENDING), [5], 10 * SECOND)
  {
    assert ExpiredSend(WithNotice(NOTICE_SENDING), [5][0], 10 * SECOND);
  }

  lemma NothingToErase()
    ensures RedactAll(WithNotice(NOTICE_UNKNOWN), [1]) == WithNotice(NOTICE_UNKNOWN)
  {
    assert [1][1..] == [];
  }

  lemma RecoveryLeads(l: Ledger, runs: seq<Id>, jobs: seq<Id>, now: int, l': Ledger)
    requires SchedulesValid(l) && ListsExpiredSends(l, runs, now) && ListsUnknown(l', jobs, now)
    requires RecoverRows(l, now) == l' && PaceAll(l', runs, now, 0) == l' && RedactAll(l', jobs) == l'
    ensures Leads(l, Recovering(runs, jobs, now, 0), l')
  {
    hide SchedulesValid;
    hide RecoverRows;
    hide PaceAll;
    hide RedactAll;
    hide ListsExpiredSends;
    hide ListsUnknown;
  }

  lemma NoticeGoesUnknown()
    ensures Leads(WithNotice(NOTICE_SENDING), Recovering([5], [1], 10 * SECOND, 0), WithNotice(NOTICE_UNKNOWN))
  {
    assert SchedulesValid(WithNotice(NOTICE_SENDING));
    UnknownIsListed(WithNotice(NOTICE_UNKNOWN));
    NothingToPace(WithNotice(NOTICE_UNKNOWN));
    RowsRecover();
    SendIsListed();
    NothingToErase();
    hide *;
    RecoveryLeads(WithNotice(NOTICE_SENDING), [5], [1], 10 * SECOND, WithNotice(NOTICE_UNKNOWN));
  }

  lemma NothingToPace(l: Ledger)
    requires l.deliveries.Keys == {Frame(5, 0)} && l.deliveries[Frame(5, 0)].status == Unknown
    ensures PaceAll(l, [5], 10 * SECOND, 0) == l
  {
    assert FirstWaiting(l, 5, 2, 1) == None;
    assert FirstWaiting(l, 5, 1, 2) == None;
    assert FirstWaiting(l, 5, 0, 3) == None;
    assert [5][1..] == [];
  }

  lemma UnknownIsListed(l: Ledger)
    requires l.deliveries == map[Frame(5, 0) := NOTICE_UNKNOWN] && 5 in l.runs && l.runs[5].job == 1
    ensures ListsUnknown(l, [1], 10 * SECOND)
  {
    assert FrameOfJob(l, Frame(5, 0), 1);
    assert UnknownNow(l, [1][0], 10 * SECOND);
  }

  lemma EndIsOwed()
    ensures var l := WithNotice(NOTICE_UNKNOWN);
      && SchedulesValid(l) && !ActiveRun(l, 1)
      && WhatIsOwed(l, 1, 10 * SECOND) == Owed(Ledger(map[1 := ENDED], l.runs, l.deliveries), 10 * SECOND, ByLifecycle)
  {
    assert Due(HOURLY.schedule, None, 10 * SECOND - 1, 0) == Ok(None);
    hide Due;
    assert WithNotice(NOTICE_UNKNOWN).jobs[1 := ENDED] == map[1 := ENDED];
  }

  lemma FarewellStarts(l: Ledger)
    requires l == WithNotice(NOTICE_UNKNOWN).(jobs := map[1 := ENDED])
    ensures WellFormed(ENDED.schedule) && StartRun(l, 1, 10 * SECOND, ByLifecycle, 10 * SECOND, 60 * SECOND, 6, 31) == Committed(ENDING, Some(6))
  {
    assert !KeyTaken(l, 1, 10 * SECOND, ByLifecycle);
    assert l.runs[6 := NewRun(ENDED, 1, 10 * SECOND, ByLifecycle, 10 * SECOND)][6 := FAREWELL] == ENDING.runs;
  }

  lemma JobEnds()
    ensures Leads(WithNotice(NOTICE_UNKNOWN), ClaimingRun([], [1], 10 * SECOND, 60 * SECOND, 6, 31), ENDING)
  {
    var l := WithNotice(NOTICE_UNKNOWN);
    EndIsOwed();
    FarewellStarts(l.(jobs := map[1 := ENDED]));
    hide ActiveRun;
    hide WhatIsOwed;
    hide StartRun;
    hide WellFormed;
    assert ClaimJobs(l, [1], 10 * SECOND, 60 * SECOND, 6, 31) == Committed(ENDING, Some(6));
  }

  lemma AttemptsLead()
    ensures Leads(WithRun(REQUESTED), ClaimingRun([5], [1], 0, 60 * SECOND, 6, 11), WithRun(Leasing(REQUESTED, 11)))
    ensures Leads(WithRun(Leasing(REQUESTED, 11)), Failing(5, 11, 0), WithRun(RETRIED))
    ensures Leads(WithRun(RETRIED), ClaimingRun([5], [1], SECOND, 60 * SECOND, 6, 12), WithRun(Leasing(RETRIED, 12)))
    ensures Leads(WithRun(Leasing(RETRIED, 12)), Failing(5, 12, SECOND), WithRun(RETRIED_AGAIN))
    ensures Leads(WithRun(RETRIED_AGAIN), ClaimingRun([5], [1], 3 * SECOND, 60 * SECOND, 6, 13), WithRun(Leasing(RETRIED_AGAIN, 13)))
  {
    hide Leads;
    hide WithRun;
    assert PowerOfTwo(0) == 1 && PowerOfTwo(1) == 2;
    Claimed(REQUESTED, 0, 11);
    Retried(Leasing(REQUESTED, 11), 0, 11, RETRIED);
    Claimed(RETRIED, SECOND, 12);
    Retried(Leasing(RETRIED, 12), SECOND, 12, RETRIED_AGAIN);
    Claimed(RETRIED_AGAIN, 3 * SECOND, 13);
  }

  lemma StepsLead()
    ensures |PATH| == |HISTORY| + 1 && PATH[0] == EMPTY && PATH[|HISTORY|] == ENDING
    ensures forall k | 0 <= k < |HISTORY| :: Leads(PATH[k], HISTORY[k], PATH[k + 1])
  {
    hide Leads;
    hide WithRun;
    hide WithNotice;
    hide Leasing;
    Created();
    Asked();
    AttemptsLead();
    GivenUp();
    NoticeClaimed();
    NoticeAdmitted();
    NoticeGoesUnknown();
    JobEnds();
  }

  // ----- The end of the history -----

  lemma EndingIsExact()
    ensures Exact(ENDING) && ErasableEarly(ENDING, 1)
  {
    assert ENDING.runs[6].job == 1;
    assert HasOpenRun(ENDING, 1);
    forall j ensures ExactFor(ENDING, j) {}
  }

  lemma EndingRecovers()
    ensures Recover(ENDING, [], [1], 10 * SECOND, 0).Committed? && OldUnknown(ENDING, 1, 10 * SECOND)
  {
    assert FrameOfJob(ENDING, Frame(5, 0), 1);
    assert RecoverRows(ENDING, 10 * SECOND) == ENDING by {
      assert RecoverRows(ENDING, 10 * SECOND).runs == ENDING.runs && RecoverRows(ENDING, 10 * SECOND).deliveries == ENDING.deliveries;
    }
    UnknownIsListed(ENDING);
  }

  /** After this history from the empty ledger erasure is exact; recovering once more within the same instant erases
      the content of the ended job under its open lifecycle run. */
  lemma RecoveryMayEraseALiveJob()
    ensures Inv(EMPTY)
    ensures var l := Play(EMPTY, HISTORY);
      && Exact(l) && 1 in l.jobs && l.jobs[1].status == Ended && 6 in l.runs && l.runs[6].job == 1 && RunOpen(l.runs[6].status)
      && Inv(l) && SchedulesValid(l) && !Exact(Apply(l, Recovering([], [1], 10 * SECOND, 0)))
  {
    assert Inv(EMPTY);
    assert 1 in ENDING.jobs && ENDING.jobs[1].status == Ended && 6 in ENDING.runs && ENDING.runs[6].job == 1 && RunOpen(ENDING.runs[6].status);
    hide *;
    StepsLead();
    PlayPath(EMPTY, HISTORY, PATH);
    EndingIsExact();
    EndingRecovers();
    SoundSchedules(ENDING);
    RecoveringExact(ENDING, [], [1], 10 * SECOND, 0);
    EndingBreaks();
  }

  lemma EndingBreaks()
    ensures SchedulesValid(ENDING) && BreaksExactness(ENDING, Recovering([], [1], 10 * SECOND, 0))
  {
    EndingIsExact();
    EndingRecovers();
    hide Exact;
    hide Recover;
    hide ErasableEarly;
    hide OldUnknown;
  }

  // ----- The lease of the lifecycle run expires -----

  const ERASED_JOB := ENDED.(content := Redacted)
  const ERASED_NOTICE := NOTICE_UNKNOWN.(output := None)

  const ERASED := Ledger(map[1 := ERASED_JOB], map[5 := GIVEN_UP, 6 := FAREWELL], map[Frame(5, 0) := ERASED_NOTICE])

  const WAITING := Ledger(map[1 := ERASED_JOB], map[5 := GIVEN_UP, 6 := FAREWELL.(status := RunPending, leaseUntil := None)], map[Frame(5, 0) := ERASED_NOTICE])

  const WITH_OTHER := WAITING.(jobs := map[1 := ERASED_JOB, 2 := EVERY_SECOND])

  const EXPIRING: seq<Event> := [Recovering([], [1], 10 * SECOND, 0), Recovering([], [], 61 * SECOND, 0), Creating(2, EVERY_SECOND, 61 * SECOND)]

  lemma EndingErases()
    ensures RecoverRows(ENDING, 10 * SECOND) == ENDING && RedactAll(ENDING, [1]) == ERASED
  {
    assert RecoverRows(ENDING, 10 * SECOND).runs == ENDING.runs && RecoverRows(ENDING, 10 * SECOND).deliveries == ENDING.deliveries;
    assert [1][1..] == [];
    assert !HasOpenFrame(ENDING, 1);
    assert FrameOfJob(ENDING, Frame(5, 0), 1);
    assert Redact(ENDING, 1).jobs == ERASED.jobs && Redact(ENDING, 1).runs == ERASED.runs && Redact(ENDING, 1).deliveries == ERASED.deliveries;
  }

  lemma EndingIsErased()
    ensures Leads(ENDING, Recovering([], [1], 10 * SECOND, 0), ERASED)
  {
    EndingErases();
    UnknownIsListed(ENDING);
    assert SchedulesValid(ENDING) && ListsExpiredSends(ENDING, [], 10 * SECOND);
    assert PaceAll(ENDING, [], 10 * SECOND, 0) == ENDING;
    hide RecoverRows;
    hide RedactAll;
    hide ListsUnknown;
    hide ListsExpiredSends;
    hide PaceAll;
    hide SchedulesValid;
  }

  lemma LeaseIsTakenBack()
    ensures RecoverRows(ERASED, 61 * SECOND) == WAITING
  {
    assert RecoverRows(ERASED, 61 * SECOND).runs == WAITING.runs && RecoverRows(ERASED, 61 * SECOND).deliveries == WAITING.deliveries;
  }

  lemma LeaseExpires()
    ensures Leads(ERASED, Recovering([], [], 61 * SECOND, 0), WAITING)
  {
    LeaseIsTakenBack();
    assert SchedulesValid(ERASED) && ListsExpiredSends(ERASED, [], 61 * SECOND) && ListsUnknown(WAITING, [], 61 * SECOND);
    assert PaceAll(WAITING, [], 61 * SECOND, 0) == WAITING && RedactAll(WAITING, []) == WAITING;
    hide *;
    RecoveryLeads(ERASED, [], [], 61 * SECOND, WAITING);
  }

  lemma OtherIsCreated()
    ensures Leads(WAITING, Creating(2, EVERY_SECOND, 61 * SECOND), WITH_OTHER)
  {
    EverySecondIsValid();
    hide Blank;
    assert WAITING.jobs[2 := EVERY_SECOND] == WITH_OTHER.jobs;
  }

  /** Whatever follows the history. */
  lemma PlaysOn(more: seq<Event>, states: seq<Ledger>)
    requires |states| == |more| + 1 && states[0] == ENDING && forall i | 0 <= i < |more| :: Leads(states[i], more[i], states[i + 1])
    ensures Inv(EMPTY) && Play(EMPTY, HISTORY + more) == states[|more|]
  {
    assert Inv(EMPTY);
    hide *;
    StepsLead();
    PlayPath(EMPTY, HISTORY, PATH);
    PlayAppend(EMPTY, HISTORY, more);
    PlayPath(ENDING, more, states);
  }

  lemma ExpiryLeads()
    ensures Inv(EMPTY) && Play(EMPTY, HISTORY + EXPIRING) == WITH_OTHER
  {
    hide Leads;
    hide Play;
    EndingIsErased();
    LeaseExpires();
    OtherIsCreated();
    PlaysOn(EXPIRING, [ENDING, ERASED, WAITING, WITH_OTHER]);
  }

  lemma FarewellWaits(now: int)
    requires now >= 61 * SECOND
    ensures var l := WITH_OTHER;
      && SchedulesValid(l) && ErasedWaiting(l, 6) && ListsPending(l, [6], now) && ListsActive(l, [2])
      && 2 in l.jobs && l.jobs[2] == EVERY_SECOND && 7 !in l.runs && forall r | r in l.runs :: l.runs[r].job != 2
  {
    assert Claimable(WITH_OTHER, [6][0], now);
  }

  /** Once its lease expired, every claim that comes to the lifecycle run of the erased job raises, whatever the clock
      says, and the job behind it is never served, although alone it would be. */
  lemma ErasedRunBlocksOthers(now: int, until: int)
    requires now >= 61 * SECOND
    ensures Inv(EMPTY)
    ensures var l := Play(EMPTY, HISTORY + EXPIRING);
      && ErasedWaiting(l, 6) && ListsPending(l, [6], now) && ListsActive(l, [2])
      && ClaimDueRun(l, [6], [2], now, until, 7, 9).Aborted?
      && ClaimDueRun(l, [], [2], now, until, 7, 9).Committed? && ClaimDueRun(l, [], [2], now, until, 7, 9).value == Some(7)
  {
    assert SECOND > 0;
    hide *;
    ExpiryLeads();
    FarewellWaits(now);
    EverySecondIsClaimed(WITH_OTHER, now, until);
    ErasedWaitingBlocks(WITH_OTHER, 6, [], [2], now, until, 7, 9);
    assert [6] + [] == [6];
  }

  // ----- The lifecycle run completes -----

  const GONE := FAREWELL.(status := Succeeded, output := Some(["good bye"]), outcome := Some(SucceededOutcome), leaseUntil := None)

  const UNADDRESSED := Ledger(
    map[1 := ERASED_JOB.(successes := 1)], map[5 := GIVEN_UP, 6 := GONE],
    map[Frame(5, 0) := ERASED_NOTICE, Frame(6, 0) := NewDelivery("good bye", None, 2, 11 * SECOND)])

  const COMPLETING: seq<Event> := [Recovering([], [1], 10 * SECOND, 0), Completing(6, 31, SucceededOutcome, ["good bye"], 11 * SECOND)]

  lemma FarewellIsStored()
    ensures AddFrames(ERASED, 6, ["good bye"], None, 2, 11 * SECOND) == Committed(ERASED.(deliveries := UNADDRESSED.deliveries), ())
  {
    assert ["good bye"][..0] == [];
    assert AddFrames(ERASED, 6, [], None, 2, 11 * SECOND) == Committed(ERASED, ());
    assert ERASED.deliveries[Frame(6, 0) := NewDelivery("good bye", None, 2, 11 * SECOND)] == UNADDRESSED.deliveries;
  }

  lemma FarewellCompletes()
    ensures Leads(ERASED, Completing(6, 31, SucceededOutcome, ["good bye"], 11 * SECOND), UNADDRESSED)
  {
    FarewellIsStored();
    hide AddFrames;
    assert "good bye"[0] == 'g';
    assert ValidFrames(["good bye"]);
    hide ValidFrames;
    assert Ends(ERASED_JOB, 10 * SECOND, 1) == Ok(true);
    hide Ends;
    assert Holds(ERASED, 6, 31, true);
    assert ERASED.jobs[1 := ERASED_JOB.(successes := 1)] == UNADDRESSED.jobs && ERASED.runs[6 := GONE] == UNADDRESSED.runs;
  }

  lemma CompletionLeads()
    ensures Inv(EMPTY) && Play(EMPTY, HISTORY + COMPLETING) == UNADDRESSED
  {
    hide Leads;
    hide Play;
    EndingIsErased();
    FarewellCompletes();
    PlaysOn(COMPLETING, [ENDING, ERASED, UNADDRESSED]);
  }

  lemma FarewellIsEligible(now: int)
    requires now >= 11 * SECOND
    ensures Eligible(UNADDRESSED, Frame(6, 0), now) && UNADDRESSED.deliveries[Frame(6, 0)].destination.None?
  {
  }

  /** If it completes in time instead, its delivery has no destination, and every claim that comes to it raises,
      whatever deliveries of other jobs are listed behind it. */
  lemma UnaddressedDeliveryBlocksOthers(rest: seq<Frame>, now: int, until: int, token: Id)
    requires now >= 11 * SECOND
    ensures Inv(EMPTY)
    ensures var l := Play(EMPTY, HISTORY + COMPLETING);
      Eligible(l, Frame(6, 0), now) && ClaimDelivery(l, [Frame(6, 0)] + rest, now, until, token).Aborted?
  {
    hide *;
    CompletionLeads();
    FarewellIsEligible(now);
    LiveFramesOf(UNADDRESSED);
    assert ([Frame(6, 0)] + rest)[0] == Frame(6, 0);
    DeliveryClaimNeverSuppresses(UNADDRESSED, [Frame(6, 0)] + rest, now, until, token);
  }
}
