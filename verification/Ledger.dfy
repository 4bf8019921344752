/** What the history of a run says about one job, read off the log alone, and how
    the job's row agrees with it. */
module Ledger {
  import opened Common
  import opened JobModel
  import opened JobSteps
  import opened JobProtocol
  import opened LeaseSafety

  /** holder: the worker whose claim is open. The counts restart at a manual reset.
      proper: every claim found the job free, every finish was the open claim's own,
      every recovery closed an open claim. */
  datatype Book = Book(holder: Option<string>, failures: nat, successes: nat, recoveries: nat, deferrals: nat,
                       proper: bool)
  {
    function Charged(): nat { failures + successes + recoveries }
  }

  function Entry(b: Book, e: Event, job: int): Book {
    match e
    case ClaimedBy(j, w) =>
      if j != job then b else b.(holder := Some(w), proper := b.proper && b.holder.None?)
    case ClosedBy(j, w, outcome) =>
      if j != job then b
      else
        var closed := b.(holder := None, proper := b.proper && b.holder == Some(w));
        if outcome.Done? then closed.(successes := b.successes + 1)
        else if outcome.Errored? then closed.(failures := b.failures + 1)
        else closed.(deferrals := b.deferrals + 1)
    case RecoveredJobs(jobs) =>
      if job !in jobs then b
      else b.(holder := None, recoveries := b.recoveries + 1, proper := b.proper && b.holder.Some?)
    case ResetJobs(jobs) =>
      if job !in jobs then b else b.(failures := 0, successes := 0, recoveries := 0, deferrals := 0)
  }

  function Read(log: seq<Event>, job: int): Book {
    if log == [] then Book(None, 0, 0, 0, 0, true)
    else Entry(Read(log[..|log| - 1], job), log[|log| - 1], job)
  }

  lemma ReadOne(log: seq<Event>, e: Event, job: int)
    ensures Read(log + [e], job) == Entry(Read(log, job), e, job)
  {
    assert (log + [e])[..|log|] == log;
  }

  // ---- Book and row ---------------------------------------------------------

  function RowOf(s: State, job: int): Option<Job> {
    if job in s.rows then Some(s.rows[job]) else None
  }

  /** The row and the book agree on who runs the job. */
  predicate HolderAgrees(b: Book, row: Option<Job>) {
    b.holder == if row.Some? && row.value.status.Running? then row.value.lockedBy else None
  }

  /** The attempt count is the number of claims charged since the last reset, and one
      for the open claim. */
  predicate BalancedBook(b: Book, row: Option<Job>) {
    if row.Some? then row.value.attempt == b.Charged() + (if row.value.status.Running? then 1 else 0)
    else b.Charged() == 0
  }

  /** At most maxAttempts failures, and the last of them ends the job. */
  predicate FailuresBounded(b: Book, row: Option<Job>) {
    if row.Some?
    then b.failures <= row.value.maxAttempts && (b.failures == row.value.maxAttempts ==> row.value.status.Failed?)
    else b.failures == 0
  }

  predicate HonestBook(b: Book, row: Option<Job>) {
    b.proper && HolderAgrees(b, row) && BalancedBook(b, row) && FailuresBounded(b, row)
  }

  predicate Balanced(s: State, job: int) {
    BalancedBook(Read(s.log, job), RowOf(s, job))
  }

  predicate Honest(s: State, job: int) {
    HonestBook(Read(s.log, job), RowOf(s, job))
  }

  lemma RecoveryEntry(b: Book, row: Job, job: int, jobs: set<int>, now: int, flush: int)
    requires HonestBook(b, Some(row)) && job in jobs && row.status.Running? && row.lockedBy.Some?
    ensures HonestBook(Entry(b, RecoveredJobs(jobs), job), Some(Recovered(row, now, flush)))
  {}

  lemma ClaimEntry(cfg: Config, b: Book, row: Job, job: int, worker: string, now: int, flush: int)
    requires HonestBook(b, Some(row)) && row.Waiting()
    ensures HonestBook(Entry(b, ClaimedBy(job, worker), job), Some(Claimed(cfg.settings, row, worker, now, flush)))
  {}

  /** A finish by the holder keeps the book honest, whatever its outcome. */
  lemma FinishEntry(cfg: Config, b: Book, row: Job, claim: Claim, worker: string, outcome: Outcome, now: int,
                    flush: int)
    requires HonestBook(b, Some(row)) && row.maxAttempts >= 1
    requires row.status.Running? && row.lockedBy == Some(worker) && claim.seen == row.attempt
    ensures HonestBook(Entry(b, ClosedBy(claim.job, worker, outcome), claim.job),
                       Some(FinishedRow(cfg, row, claim, outcome, now, flush)))
  {}

  lemma ResetEntry(b: Book, row: Job, job: int, jobs: set<int>, now: int)
    requires HonestBook(b, Some(row)) && job in jobs && !row.status.Running? && row.maxAttempts >= 1
    ensures HonestBook(Entry(b, ResetJobs(jobs), job), Some(ResetRow(row, now)))
  {}

  // ---- Steps ----------------------------------------------------------------

  lemma RecoveryKeepsHonest(cfg: Config, s: State, batch: seq<int>, now: int, flush: int, job: int)
    requires RunningOwned(cfg, s) && Honest(s, job) && IsRunningScan(s.rows, batch)
    ensures Honest(AfterRecovery(cfg, s, batch, now, flush), job)
  {
    var jobs := RecoverySet(cfg.settings, s.rows, batch, now);
    RowAfterRecovery(cfg, s, batch, now, flush, job);
    if job in jobs {
      assert Owned(cfg, s, job);
      RecoveryEntry(Read(s.log, job), s.rows[job], job, jobs, now, flush);
    }
    LoggedStep(s, AfterRecovery(cfg, s, batch, now, flush), RecoveredJobs(jobs), job);
  }

  lemma RowAfterRecovery(cfg: Config, s: State, batch: seq<int>, now: int, flush: int, job: int)
    requires IsRunningScan(s.rows, batch)
    ensures RowOf(AfterRecovery(cfg, s, batch, now, flush), job)
            == if job in RecoverySet(cfg.settings, s.rows, batch, now) then Some(Recovered(s.rows[job], now, flush))
               else RowOf(s, job)
    ensures job in RecoverySet(cfg.settings, s.rows, batch, now) ==> s.rows[job].status.Running?
  {}

  lemma LoggedStep(s: State, s': State, e: Event, job: int)
    requires s'.log == s.log + [e] && HonestBook(Entry(Read(s.log, job), e, job), RowOf(s', job))
    ensures Honest(s', job)
  {
    ReadOne(s.log, e, job);
  }

  lemma ClaimKeepsHonest(cfg: Config, s: State, j: int, worker: string, now: int, flush: int, job: int)
    requires Honest(s, job) && j in s.rows && s.rows[j].Waiting()
    ensures Honest(AfterClaim(cfg, s, j, worker, now, flush), job)
  {
    ReadOne(s.log, ClaimedBy(j, worker), job);
    if j == job {
      ClaimEntry(cfg, Read(s.log, job), s.rows[job], job, worker, now, flush);
    }
  }

  lemma PollKeepsHonest(cfg: Config, s: State, a: Action, job: int)
    requires Inv(cfg, s) && Honest(s, job) && a.Poll? && Enabled(cfg, s, a)
    ensures Honest(DoPoll(cfg, s, a), job)
  {
    RecoveryKeepsHonest(cfg, s, a.batch, a.now, a.flush, job);
    var s1 := AfterRecovery(cfg, s, a.batch, a.now, a.flush).(clock := a.flush);
    var picked := Pick(cfg.settings, s.rows, cfg.accounts, a.lockable, a.candidates, a.now);
    if picked.Some? {
      ClaimKeepsHonest(cfg, s1, picked.value, a.worker, a.now, a.flush, job);
    }
  }

  lemma FinishKeepsHonest(cfg: Config, s: State, a: Action, job: int)
    requires Inv(cfg, s) && Honest(s, job) && a.Finish? && Enabled(cfg, s, a) && HeldStep(s, a, job)
    ensures Honest(DoFinish(cfg, s, a), job)
  {
    var claim := s.inflight[a.worker];
    ReadOne(s.log, ClosedBy(claim.job, a.worker, a.outcome), job);
    if claim.job == job {
      assert Owned(cfg, s, job);
      FinishEntry(cfg, Read(s.log, job), s.rows[job], claim, a.worker, a.outcome, a.now, a.flush);
    }
  }

  /** Nothing was logged; the job's row stays, or is new and unclaimed, or waited and
      was stopped. */
  lemma QuietStepKeepsHonest(s: State, s': State, job: int)
    requires Honest(s, job) && s'.log == s.log && (job in s.rows ==> job in s'.rows)
    requires job in s'.rows ==>
               if job !in s.rows then
                 s'.rows[job].status.Pending? && s'.rows[job].attempt == 0 && s'.rows[job].maxAttempts >= 1
               else
                 s'.rows[job] == s.rows[job]
                 || (s.rows[job].Waiting() && exists now :: s'.rows[job] == StoppedRow(s.rows[job], now))
    ensures Honest(s', job)
  {}

  lemma EnqueueKeepsHonest(cfg: Config, s: State, a: Action, job: int)
    requires Inv(cfg, s) && Honest(s, job) && Enabled(cfg, s, a) && IsEnqueue(s, a)
    ensures Honest(Next(cfg, s, a), job)
  {
    EnqueueKeepsOldRows(cfg, s, a);
    var s' := Next(cfg, s, a);
    if job in s'.rows && job !in s.rows {
      var spec := NewRowIsAdmitted(cfg, s, a, job);
    }
    QuietStepKeepsHonest(s, s', job);
  }

  lemma OtherKeepsHonest(cfg: Config, s: State, a: Action, job: int)
    requires Inv(cfg, s) && Honest(s, job) && Enabled(cfg, s, a)
    requires !a.Poll? && !a.Finish? && !IsEnqueue(s, a)
    ensures Honest(DoOther(s, a), job)
  {
    if a.RetryFailed? || a.RetryOne? {
      ResetKeepsHonest(cfg, s, a, job);
    } else {
      StopMeansStopped(s, a, job);
      QuietStepKeepsHonest(s, DoOther(s, a), job);
    }
  }

  lemma StopMeansStopped(s: State, a: Action, job: int)
    requires !a.Poll? && !a.Finish? && !IsEnqueue(s, a) && !a.ManualRetry()
    requires a.SetActive? || a.Stop? ==> a.target in s.targets
    ensures var s' := DoOther(s, a);
            && s'.log == s.log && s'.rows.Keys == s.rows.Keys
            && (job in s.rows ==>
                  || s'.rows[job] == s.rows[job]
                  || (s.rows[job].Waiting() && exists now :: s'.rows[job] == StoppedRow(s.rows[job], now)))
  {
    if a.Stop? && job in s.rows && Stoppable(s.rows[job], a.parser, a.target) {
      assert DoOther(s, a).rows[job] == StoppedRow(s.rows[job], a.now);
    }
  }

  lemma ResetKeepsHonest(cfg: Config, s: State, a: Action, job: int)
    requires Inv(cfg, s) && Honest(s, job) && Enabled(cfg, s, a) && a.ManualRetry()
    ensures Honest(DoOther(s, a), job)
  {
    var jobs := if a.RetryFailed? then a.jobs else {a.job};
    RowAfterReset(cfg, s, a, jobs, job);
    if job in jobs {
      ResetEntry(Read(s.log, job), s.rows[job], job, jobs, a.now);
    }
    LoggedStep(s, DoOther(s, a), ResetJobs(jobs), job);
  }

  lemma RowAfterReset(cfg: Config, s: State, a: Action, jobs: set<int>, job: int)
    requires Enabled(cfg, s, a) && a.ManualRetry() && jobs == if a.RetryFailed? then a.jobs else {a.job}
    ensures DoOther(s, a).log == s.log + [ResetJobs(jobs)]
    ensures job in jobs ==> job in s.rows && !s.rows[job].status.Running?
    ensures RowOf(DoOther(s, a), job) == if job in jobs then Some(ResetRow(s.rows[job], a.now)) else RowOf(s, job)
  {}

  lemma NextKeepsHonest(cfg: Config, s: State, a: Action, job: int)
    requires Inv(cfg, s) && Honest(s, job) && Enabled(cfg, s, a) && HeldStep(s, a, job)
    ensures Honest(Next(cfg, s, a), job)
  {
    if IsEnqueue(s, a) {
      EnqueueKeepsHonest(cfg, s, a, job);
    } else if a.Poll? {
      PollKeepsHonest(cfg, s, a, job);
    } else if a.Finish? {
      FinishKeepsHonest(cfg, s, a, job);
    } else {
      OtherKeepsHonest(cfg, s, a, job);
    }
  }

  /** In every run whose finishes on the job are made by its holder: each claim is
      closed at most once and by its own worker or by recovery, attempt = failures +
      successes + recoveries + (1 if running), deferrals cost nothing, and the failure
      path is taken at most maxAttempts times, the last time ending the job. */
  lemma {:induction false} HeldRunIsHonest(cfg: Config, run: seq<Action>, job: int)
    requires IsRun(cfg, run) && HeldRun(cfg, run, job)
    ensures Honest(After(cfg, run), job)
  {
    if run != [] {
      var before := After(cfg, run[..|run| - 1]);
      HeldRunIsHonest(cfg, run[..|run| - 1], job);
      EveryRunKeepsInv(cfg, run[..|run| - 1]);
      NextKeepsHonest(cfg, before, run[|run| - 1], job);
    }
  }

  /** On the telegram queues timeliness alone is enough. */
  lemma TimelyTelegramRunIsHonest(cfg: Config, run: seq<Action>, job: int)
    requires IsRun(cfg, run) && TimelyRun(cfg, run)
    requires job in After(cfg, run).rows && OnTelegramQueue(After(cfg, run).rows[job])
    ensures Honest(After(cfg, run), job)
  {
    TimelyRunIsHeldRun(cfg, run, job);
    HeldRunIsHonest(cfg, run, job);
  }

  /** A deferral by the holder gives the job back exactly the attempt count it had
      before the claim; the clamp at zero changes nothing. */
  lemma DeferralIsFree(cfg: Config, run: seq<Action>, a: Action)
    requires IsRun(cfg, run) && a.Finish? && a.outcome.Deferred? && Enabled(cfg, After(cfg, run), a)
    requires Held(After(cfg, run), a.worker)
    requires HeldRun(cfg, run, After(cfg, run).inflight[a.worker].job)
    ensures var s := After(cfg, run);
            var j := s.inflight[a.worker].job;
            && s.inflight[a.worker].seen - 1 >= 0
            && Next(cfg, s, a).rows[j].attempt == s.rows[j].attempt - 1
            && Next(cfg, s, a).rows[j].attempt == Read(s.log, j).Charged()
  {
    var s := After(cfg, run);
    EveryRunKeepsInv(cfg, run);
    HeldRunIsHonest(cfg, run, s.inflight[a.worker].job);
    assert Owned(cfg, s, s.inflight[a.worker].job);
  }

  /** Exactly when a finish keeps the books: a completion or failure must find the
      row running, a deferral must put back the count the row would have unclaimed. */
  lemma FinishKeepsBalanceIff(cfg: Config, s: State, a: Action)
    requires a.Finish? && a.worker in s.inflight && s.inflight[a.worker].job in s.rows
    requires Balanced(s, s.inflight[a.worker].job)
    ensures var claim := s.inflight[a.worker];
            var row := s.rows[claim.job];
            Balanced(DoFinish(cfg, s, a), claim.job) <==>
              if a.outcome.Deferred?
              then Max(claim.seen - 1, 0) == row.attempt - (if row.status.Running? then 1 else 0)
              else row.status.Running?
  {
    var claim := s.inflight[a.worker];
    RowAfterFinish(cfg, s.rows[claim.job], claim, a.outcome, a.now, a.flush);
    BooksAfterFinish(cfg, s, a);
  }

  /** Exactly when a finish, late or not, keeps the failures within the limit: there must
      be a failure left, and the last one must end the job. */
  lemma FinishKeepsFailuresIff(cfg: Config, s: State, a: Action)
    requires a.Finish? && a.worker in s.inflight && s.inflight[a.worker].job in s.rows
    requires FailuresBounded(Read(s.log, s.inflight[a.worker].job), RowOf(s, s.inflight[a.worker].job))
    ensures var claim := s.inflight[a.worker];
            var row, failures := s.rows[claim.job], Read(s.log, claim.job).failures;
            var s' := DoFinish(cfg, s, a);
            FailuresBounded(Read(s'.log, claim.job), RowOf(s', claim.job)) <==>
              failures < row.maxAttempts
              && (a.outcome.Errored? && failures + 1 == row.maxAttempts ==> row.attempt >= row.maxAttempts)
  {
    var claim := s.inflight[a.worker];
    ReadOne(s.log, ClosedBy(claim.job, a.worker, a.outcome), claim.job);
    FailuresAfterFinish(cfg, Read(s.log, claim.job), s.rows[claim.job], claim, a.worker, a.outcome, a.now, a.flush);
  }

  lemma FailuresAfterFinish(cfg: Config, b: Book, row: Job, claim: Claim, worker: string, outcome: Outcome,
                            now: int, flush: int)
    requires FailuresBounded(b, Some(row))
    ensures FailuresBounded(Entry(b, ClosedBy(claim.job, worker, outcome), claim.job),
                            Some(FinishedRow(cfg, row, claim, outcome, now, flush))) <==>
              b.failures < row.maxAttempts
              && (outcome.Errored? && b.failures + 1 == row.maxAttempts ==> row.attempt >= row.maxAttempts)
  {}

  /** A finish charges the job one success or failure, or nothing for a deferral. */
  lemma BooksAfterFinish(cfg: Config, s: State, a: Action)
    requires a.Finish? && a.worker in s.inflight && s.inflight[a.worker].job in s.rows
    ensures var claim := s.inflight[a.worker];
            var row := FinishedRow(cfg, s.rows[claim.job], claim, a.outcome, a.now, a.flush);
            Balanced(DoFinish(cfg, s, a), claim.job) <==>
              row.attempt == Read(s.log, claim.job).Charged() + (if a.outcome.Deferred? then 0 else 1)
                             + (if row.status.Running? then 1 else 0)
  {
    var claim := s.inflight[a.worker];
    ReadOne(s.log, ClosedBy(claim.job, a.worker, a.outcome), claim.job);
  }

  /** What a finish leaves: no running row, and the attempt count as it was, except
      that a deferral writes back what the worker saw less one. */
  lemma RowAfterFinish(cfg: Config, row: Job, claim: Claim, outcome: Outcome, now: int, flush: int)
    ensures var r := FinishedRow(cfg, row, claim, outcome, now, flush);
            !r.status.Running? && r.attempt == if outcome.Deferred? then Max(claim.seen - 1, 0) else row.attempt
  {}
}
