/** Runs that show why the conditions of the run theorems are there. */
module Counterexamples {
  import opened Common
  import opened JobModel
  import opened JobSteps
  import opened JobProtocol
  import opened LeaseSafety
  import opened KeyDiscipline
  import opened NoStranded
  import opened Ledger

  function DefaultSettings(): Settings {
    Settings(900, 8, 20, 20, 15, 120, 300, 900, 600, 3, 1, 1, 2, 5, 7, 5, 4, 5)
  }

  function DefaultConfig(): Config {
    Config(DefaultSettings(), map[])
  }

  lemma Extend(cfg: Config, run: seq<Action>, a: Action)
    requires IsRun(cfg, run) && Enabled(cfg, After(cfg, run), a)
    ensures IsRun(cfg, run + [a]) && After(cfg, run + [a]) == Next(cfg, After(cfg, run), a)
  {
    assert (run + [a])[..|run|] == run;
  }

  /** Stopping a queued target leaves it queued with no active job. */
  lemma StopStrandsQueuedTarget() returns (run: seq<Action>)
    ensures IsRun(DefaultConfig(), run) && !AllServed(After(DefaultConfig(), run))
  {
    var cfg := DefaultConfig();
    run := [];
    Extend(cfg, run, Onboard(1, 0, 0));
    run := run + [Onboard(1, 0, 0)];
    var s := After(cfg, run);
    var b := EnqueueOne(cfg.settings, map[], Batch(map[], 1, 0, 0), TELEGRAM, OnboardSpec(1), 0, 0);
    assert [OnboardSpec(1)][..0] == [];
    assert Matches(map[], TELEGRAM, OnboardSpec(1)) == {};
    assert s.targets == map[1 := Target(Queued, true)];
    assert s.rows == map[1 := NewRow(cfg.settings, TELEGRAM, OnboardSpec(1), 0, 0)];
    var stop := Stop(1, TELEGRAM, 0);
    Extend(cfg, run, stop);
    run := run + [stop];
    var s' := After(cfg, run);
    assert !Served(s', 1);
  }

  function ForumSpec(): Spec {
    Spec(1, None, Some("forum"), false, 0, "", 0, None)
  }

  function ForumRow(now: int): Job {
    NewRow(DefaultSettings(), DARKNET, ForumSpec(), now, now)
  }

  /** One job of one key: claimed by "a" at 0 and again, after its lease, by "b" at 2000. */
  function ClaimedByA(): Job { Claimed(DefaultSettings(), ForumRow(0), "a", 0, 0) }

  function TakenBack(): Job { Recovered(ClaimedByA(), 2000, 2000) }

  function ClaimedByB(): Job { Claimed(DefaultSettings(), TakenBack(), "b", 2000, 2000) }

  function ClosedByB(): Job { CompletedRow(ClaimedByB(), 2000) }

  const FIRST_LOG := [RecoveredJobs({}), ClaimedBy(1, "a")]
  const SECOND_LOG := FIRST_LOG + [RecoveredJobs({1})]
  const THIRD_LOG := SECOND_LOG + [RecoveredJobs({}), ClaimedBy(1, "b")]
  const FOURTH_LOG := THIRD_LOG + [ClosedBy(1, "b", Done(None))]
  const CLAIM_A := Claim(1, 0, 1)

  function LateActions(): seq<Action> {
    [Schedule(1, DARKNET, [ForumSpec()], 0, 0),
     Poll("a", [], [1], {}, 0, 0),
     Poll("b", [1], [], {}, 2000, 2000),
     Poll("b", [], [1], {}, 2000, 2000),
     Finish("b", Done(None), 2000, 2000),
     Schedule(1, DARKNET, [ForumSpec()], 2000, 2000)]
  }

  function LateStates(): seq<State> {
    [Init(),
     State(0, map[1 := ForumRow(0)], 2, map[], map[], []),
     State(0, map[1 := ClaimedByA()], 2, map["a" := CLAIM_A], map[], FIRST_LOG),
     State(2000, map[1 := TakenBack()], 2, map["a" := CLAIM_A], map[], SECOND_LOG),
     State(2000, map[1 := ClaimedByB()], 2, map["a" := CLAIM_A, "b" := Claim(1, 2000, 2)], map[], THIRD_LOG),
     State(2000, map[1 := ClosedByB()], 2, map["a" := CLAIM_A], map[], FOURTH_LOG),
     State(2000, map[1 := ClosedByB(), 2 := ForumRow(2000)], 3, map["a" := CLAIM_A], map[], FOURTH_LOG)]
  }

  lemma FirstSchedule()
    ensures var s, a := LateStates()[0], LateActions()[0];
            Enabled(DefaultConfig(), s, a) && Next(DefaultConfig(), s, a) == LateStates()[1]
  {
    assert [ForumSpec()][..0] == [];
    assert Matches(map[], DARKNET, ForumSpec()) == {};
  }

  lemma FirstClaim()
    ensures var s, a := LateStates()[1], LateActions()[1];
            Enabled(DefaultConfig(), s, a) && Next(DefaultConfig(), s, a) == LateStates()[2]
  {
    var rows := LateStates()[1].rows;
    assert RecoverySet(DefaultSettings(), rows, [], 0) == {};
    assert RecoverRows(DefaultSettings(), rows, [], 0, 0) == rows;
  }

  lemma LeaseRunsOut()
    ensures var s, a := LateStates()[2], LateActions()[2];
            Enabled(DefaultConfig(), s, a) && Next(DefaultConfig(), s, a) == LateStates()[3]
  {
    DarknetIsItsOwnQueue();
    var rows := LateStates()[2].rows;
    assert Stale(DefaultSettings(), ClaimedByA(), 2000);
    assert RecoverySet(DefaultSettings(), rows, [1], 2000) == {1};
    assert RecoverRows(DefaultSettings(), rows, [1], 2000, 2000) == map[1 := TakenBack()];
  }

  lemma SecondClaim()
    ensures var s, a := LateStates()[3], LateActions()[3];
            Enabled(DefaultConfig(), s, a) && Next(DefaultConfig(), s, a) == LateStates()[4]
  {
    var rows := LateStates()[3].rows;
    assert RecoverySet(DefaultSettings(), rows, [], 2000) == {};
    assert RecoverRows(DefaultSettings(), rows, [], 2000, 2000) == rows;
    assert SECOND_LOG + [RecoveredJobs({})] + [ClaimedBy(1, "b")] == THIRD_LOG;
  }

  lemma SecondFinish()
    ensures var s, a := LateStates()[4], LateActions()[4];
            Enabled(DefaultConfig(), s, a) && Next(DefaultConfig(), s, a) == LateStates()[5]
  {}

  lemma SecondSchedule()
    ensures var s, a := LateStates()[5], LateActions()[5];
            Enabled(DefaultConfig(), s, a) && Next(DefaultConfig(), s, a) == LateStates()[6]
  {
    assert [ForumSpec()][..0] == [];
    assert Matches(LateStates()[5].rows, DARKNET, ForumSpec()) == {};
  }

  lemma {:induction false} LateStep(i: nat)
    requires i < 6
    ensures var s, a := LateStates()[i], LateActions()[i];
            Enabled(DefaultConfig(), s, a) && Next(DefaultConfig(), s, a) == LateStates()[i + 1]
  {
    if i == 0 { FirstSchedule(); } else if i == 1 { FirstClaim(); } else if i == 2 { LeaseRunsOut(); }
    else if i == 3 { SecondClaim(); } else if i == 4 { SecondFinish(); } else { SecondSchedule(); }
  }

  lemma {:induction false} LateRunReaches(i: nat)
    requires i <= 6
    ensures IsRun(DefaultConfig(), LateActions()[..i]) && After(DefaultConfig(), LateActions()[..i]) == LateStates()[i]
  {
    if i > 0 {
      LateRunReaches(i - 1);
      LateStep(i - 1);
      Extend(DefaultConfig(), LateActions()[..i - 1], LateActions()[i - 1]);
      assert LateActions()[..i] == LateActions()[..i - 1] + [LateActions()[i - 1]];
    }
  }

  lemma DarknetIsItsOwnQueue()
    ensures forall now, status, attempt ::
              EffectiveQueue(ForumRow(now).(status := status, attempt := attempt)) == DARKNET
    ensures DARKNET != TELEGRAM_LIVE && DARKNET != TELEGRAM_BACKFILL && DARKNET != TELEGRAM
  {
    assert DARKNET[0] == 'd' && TELEGRAM_LIVE[0] == 't' && TELEGRAM_BACKFILL[0] == 't' && TELEGRAM[0] == 't';
  }

  /** A late failure then revives the finished job beside the new one, and the books
      no longer balance: one finish by a worker that lost its job breaks both. */
  lemma LateFinishBreaksKeysAndBooks() returns (run: seq<Action>)
    ensures IsRun(DefaultConfig(), run) && NoManualRetry(run)
    ensures !OneActive(After(DefaultConfig(), run), "forum")
    ensures !Balanced(After(DefaultConfig(), run), 1) && !HeldRun(DefaultConfig(), run, 1)
  {
    LateRunReaches(6);
    var before := LateActions();
    assert before[..6] == before;
    LateFailure();
    Extend(DefaultConfig(), before, Late());
    run := before + [Late()];
    assert run[..|run| - 1] == before;
    NobodyRetries();
  }

  lemma NobodyRetries()
    ensures NoManualRetry(LateActions() + [Late()])
  {}

  function Late(): Action { Finish("a", Errored, 2000, 2000) }

  lemma LateFailure()
    ensures var s := LateStates()[6];
            && Enabled(DefaultConfig(), s, Late()) && !Held(s, "a") && s.inflight["a"].job == 1
            && !OneActive(Next(DefaultConfig(), s, Late()), "forum")
            && !Balanced(Next(DefaultConfig(), s, Late()), 1)
  {
    var s' := Next(DefaultConfig(), LateStates()[6], Late());
    assert s'.rows[1].Active() && s'.rows[2].Active();
    BooksOfLateRun(s'.log);
  }

  lemma BooksOfLateRun(log: seq<Event>)
    requires log == [RecoveredJobs({}), ClaimedBy(1, "a"), RecoveredJobs({1}), RecoveredJobs({}), ClaimedBy(1, "b"),
                     ClosedBy(1, "b", Done(None)), ClosedBy(1, "a", Errored)]
    ensures Read(log, 1).Charged() == 3
  {
    var b0 := Read([], 1);
    ReadOne([], log[0], 1);
    ReadOne(log[..1], log[1], 1);
    ReadOne(log[..2], log[2], 1);
    ReadOne(log[..3], log[3], 1);
    ReadOne(log[..4], log[4], 1);
    ReadOne(log[..5], log[5], 1);
    ReadOne(log[..6], log[6], 1);
    assert [] + [log[0]] == log[..1] && log[..1] + [log[1]] == log[..2] && log[..2] + [log[2]] == log[..3];
    assert log[..3] + [log[3]] == log[..4] && log[..4] + [log[4]] == log[..5] && log[..5] + [log[5]] == log[..6];
    assert log[..6] + [log[6]] == log;
  }

  // ---- A manual retry -------------------------------------------------------

  function OnceSpec(): Spec {
    Spec(1, None, Some("forum"), false, 0, "", 1, None)
  }

  function OnceRow(): Job {
    NewRow(DefaultSettings(), DARKNET, OnceSpec(), 0, 0)
  }

  function OnceClaimed(): Job { Claimed(DefaultSettings(), OnceRow(), "a", 0, 0) }

  function OnceFailed(): Job { FailedRow(DefaultSettings(), OnceClaimed(), 0, 0) }

  /** A job of one attempt fails, the scheduler asks for another with its key. */
  function RetryActions(): seq<Action> {
    [Schedule(1, DARKNET, [OnceSpec()], 0, 0),
     Poll("a", [], [1], {}, 0, 0),
     Finish("a", Errored, 0, 0),
     Schedule(1, DARKNET, [OnceSpec()], 0, 0)]
  }

  function RetryStates(): seq<State> {
    [Init(),
     State(0, map[1 := OnceRow()], 2, map[], map[], []),
     State(0, map[1 := OnceClaimed()], 2, map["a" := CLAIM_A], map[], FIRST_LOG),
     State(0, map[1 := OnceFailed()], 2, map[], map[], FIRST_LOG + [ClosedBy(1, "a", Errored)]),
     State(0, map[1 := OnceFailed(), 2 := OnceRow()], 3, map[], map[], FIRST_LOG + [ClosedBy(1, "a", Errored)])]
  }

  lemma OnceScheduled()
    ensures var s, a := RetryStates()[0], RetryActions()[0];
            Enabled(DefaultConfig(), s, a) && Next(DefaultConfig(), s, a) == RetryStates()[1]
  {
    assert [OnceSpec()][..0] == [];
    assert Matches(map[], DARKNET, OnceSpec()) == {};
  }

  lemma OnceClaims()
    ensures var s, a := RetryStates()[1], RetryActions()[1];
            Enabled(DefaultConfig(), s, a) && Next(DefaultConfig(), s, a) == RetryStates()[2]
  {
    var rows := RetryStates()[1].rows;
    assert RecoverySet(DefaultSettings(), rows, [], 0) == {};
    assert RecoverRows(DefaultSettings(), rows, [], 0, 0) == rows;
  }

  lemma OnceFails()
    ensures var s, a := RetryStates()[2], RetryActions()[2];
            Enabled(DefaultConfig(), s, a) && Next(DefaultConfig(), s, a) == RetryStates()[3]
  {}

  lemma ScheduledAgain()
    ensures var s, a := RetryStates()[3], RetryActions()[3];
            Enabled(DefaultConfig(), s, a) && Next(DefaultConfig(), s, a) == RetryStates()[4]
  {
    assert [OnceSpec()][..0] == [];
    assert Matches(RetryStates()[3].rows, DARKNET, OnceSpec()) == {};
  }

  lemma {:induction false} RetryRunReaches(i: nat)
    requires i <= 4
    ensures IsRun(DefaultConfig(), RetryActions()[..i])
    ensures After(DefaultConfig(), RetryActions()[..i]) == RetryStates()[i]
  {
    if i > 0 {
      RetryRunReaches(i - 1);
      RetryStep(i - 1);
      Extend(DefaultConfig(), RetryActions()[..i - 1], RetryActions()[i - 1]);
      assert RetryActions()[..i] == RetryActions()[..i - 1] + [RetryActions()[i - 1]];
    }
  }

  lemma RetryStep(i: nat)
    requires i < 4
    ensures var s, a := RetryStates()[i], RetryActions()[i];
            Enabled(DefaultConfig(), s, a) && Next(DefaultConfig(), s, a) == RetryStates()[i + 1]
  {
    match i
    case 0 => OnceScheduled();
    case 1 => OnceClaims();
    case 2 => OnceFails();
    case _ => ScheduledAgain();
  }

  /** Retrying the failed job, by either handler, then gives two active jobs of the key
      although every finish was in time and by its holder. */
  lemma RetryBreaksKeys() returns (run: seq<Action>)
    ensures IsRun(DefaultConfig(), run) && NoManualRetry(run) && OneActive(After(DefaultConfig(), run), "forum")
    ensures var s, bulk, single := After(DefaultConfig(), run), RetryFailed({1}, 0), RetryOne(1, 0);
            && Enabled(DefaultConfig(), s, bulk) && !OneActive(Next(DefaultConfig(), s, bulk), "forum")
            && Enabled(DefaultConfig(), s, single) && !OneActive(Next(DefaultConfig(), s, single), "forum")
  {
    run := RetryActions();
    RetryRunReaches(4);
    assert run[..4] == run;
    NoRetryBefore();
    BothActive(RetryFailed({1}, 0));
    BothActive(RetryOne(1, 0));
  }

  lemma NoRetryBefore()
    ensures NoManualRetry(RetryActions())
  {}

  lemma BothActive(a: Action)
    requires a == RetryFailed({1}, 0) || a == RetryOne(1, 0)
    ensures Enabled(DefaultConfig(), RetryStates()[4], a) && OneActive(RetryStates()[4], "forum")
    ensures !OneActive(Next(DefaultConfig(), RetryStates()[4], a), "forum")
  {
    var s' := Next(DefaultConfig(), RetryStates()[4], a);
    assert s'.rows[1].Active() && s'.rows[2].Active();
  }
}
