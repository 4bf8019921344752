/** One row of the job table and the pure rules the worker applies to it:
    effective queue, lease length, parallel limit, staleness, retry back-off.
    Times are whole seconds. */
module JobModel {
  import opened Common
  import opened Decimal

  const TELEGRAM := "telegram"
  const DARKNET := "darknet"
  const WEB := "web"
  const TELEGRAM_LIVE := "telegram_live"
  const TELEGRAM_BACKFILL := "telegram_backfill"

  const ONBOARD_PREFIX := "onboard:"
  const BACKFILL_PREFIX := "backfill:"
  const BACKFILL_FULL_PREFIX := "backfill-full:"

  datatype Status = Pending | Running | Retry | Succeeded | Failed

  datatype Settings = Settings(
    fetchTimeout: int,
    liveLockMinutes: int, backfillLockMinutes: int, darknetLockMinutes: int, webLockMinutes: int,
    liveBackoffMax: int, backfillBackoffMax: int, darknetBackoffMax: int, webBackoffMax: int,
    telegramParallel: int, telegramBackfillParallel: int, darknetParallel: int, webParallel: int,
    liveAttempts: int, backfillAttempts: int, darknetAttempts: int, webAttempts: int, otherAttempts: int)

  /** The part of an account the capacity rule reads; None = not set on the account. */
  datatype Account = Account(parser: string, parallel: Option<int>, backfillParallel: Option<int>)

  datatype Job = Job(
    parser: string, target: int, account: Option<int>, key: Option<string>, queue: string,
    onboard: bool, minInterval: int,
    status: Status, attempt: int, maxAttempts: int, runAfter: int,
    lockedBy: Option<string>, lockExpires: Option<int>, createdAt: int, updatedAt: int)
  {
    predicate Active() { status.Pending? || status.Running? || status.Retry? }

    predicate Waiting() { status.Pending? || status.Retry? }
  }

  // ---- Queues ---------------------------------------------------------------

  predicate IsBackfillKey(key: Option<string>) {
    key.Some? && (StartsWith(key.value, BACKFILL_PREFIX) || StartsWith(key.value, BACKFILL_FULL_PREFIX))
  }

  function ResolveQueue(parser: string, key: Option<string>, explicit: string): string {
    if explicit != "" then explicit
    else if parser == TELEGRAM then (if IsBackfillKey(key) then TELEGRAM_BACKFILL else TELEGRAM_LIVE)
    else if parser != "" then parser
    else WEB
  }

  function EffectiveQueue(job: Job): string {
    if job.queue != "" then job.queue else ResolveQueue(job.parser, job.key, "")
  }

  predicate OnTelegramQueue(job: Job) {
    EffectiveQueue(job) == TELEGRAM_LIVE || EffectiveQueue(job) == TELEGRAM_BACKFILL
  }

  function DefaultMaxAttempts(cfg: Settings, queue: string): int {
    if queue == TELEGRAM_BACKFILL then Max(cfg.backfillAttempts, 1)
    else if queue == TELEGRAM_LIVE then Max(cfg.liveAttempts, 1)
    else if queue == DARKNET then Max(cfg.darknetAttempts, 1)
    else if queue == WEB then Max(cfg.webAttempts, 1)
    else Max(cfg.otherAttempts, 1)
  }

  // ---- Leases ---------------------------------------------------------------

  /** Longest a telegram job body is allowed to run. */
  function FetchBudget(cfg: Settings): int {
    Max(cfg.fetchTimeout, 30)
  }

  function LockMinutes(cfg: Settings, job: Job): int {
    var queue := EffectiveQueue(job);
    var soft := Max(5, FetchBudget(cfg) / 60 + 2);
    if queue == TELEGRAM_LIVE then Max(cfg.liveLockMinutes, soft)
    else if queue == TELEGRAM_BACKFILL then Max(cfg.backfillLockMinutes, Max(10, soft * 2))
    else if queue == DARKNET then Max(cfg.darknetLockMinutes, 5)
    else if queue == WEB then Max(cfg.webLockMinutes, 5)
    else 15
  }

  predicate LeaseFree(job: Job, now: int) {
    job.lockExpires.None? || job.lockExpires.value < now
  }

  /** What the claim query selects. */
  predicate Claimable(job: Job, now: int) {
    job.Waiting() && job.runAfter <= now && LeaseFree(job, now)
  }

  /** A running row whose lease still counts against its account. */
  predicate LiveLease(job: Job, now: int) {
    job.status.Running? && (job.lockExpires.None? || job.lockExpires.value >= now)
  }

  function Claimed(cfg: Settings, job: Job, worker: string, now: int, flush: int): Job {
    job.(status := Running, lockedBy := Some(worker), lockExpires := Some(now + 60 * LockMinutes(cfg, job)),
         attempt := job.attempt + 1, updatedAt := flush)
  }

  function SoftStaleSeconds(cfg: Settings): int {
    Max(cfg.fetchTimeout * 2, 600)
  }

  predicate LeaseExpired(job: Job, now: int) {
    job.lockExpires.Some? && job.lockExpires.value < now
  }

  predicate SoftStale(cfg: Settings, job: Job, now: int) {
    job.parser == TELEGRAM && job.updatedAt < now - SoftStaleSeconds(cfg)
  }

  predicate Stale(cfg: Settings, job: Job, now: int) {
    job.status.Running? && (LeaseExpired(job, now) || SoftStale(cfg, job, now))
  }

  function Released(job: Job, status: Status, runAfter: int, flush: int): Job {
    job.(status := status, runAfter := runAfter, lockedBy := None, lockExpires := None, updatedAt := flush)
  }

  function Recovered(job: Job, now: int, flush: int): Job {
    Released(job, Retry, now, flush)
  }

  /** Neither rule takes a telegram job back before its fetch budget and a minute
      more have passed since the claim. */
  lemma ReclaimOnlyAfterBudget(cfg: Settings, job: Job, worker: string, claimedAt: int, flush: int, now: int)
    requires OnTelegramQueue(job) && claimedAt <= flush
    requires Stale(cfg, Claimed(cfg, job, worker, claimedAt, flush), now)
    ensures now > claimedAt + Max(cfg.fetchTimeout, 30) + 60
  {
    var budget := FetchBudget(cfg);
    assert 60 * (budget / 60 + 2) > budget + 60;
    assert LockMinutes(cfg, job) >= budget / 60 + 2;
    assert SoftStaleSeconds(cfg) >= budget + 60;
  }

  /** Exactly when the soft rule can take a claim back while its lease still runs: its
      delay from the claim's commit ends before the lease does. */
  lemma SoftRulePrecedesLeaseIff(cfg: Settings, job: Job, worker: string, claimedAt: int, flush: int)
    requires job.parser == TELEGRAM
    ensures var c := Claimed(cfg, job, worker, claimedAt, flush);
            (exists now :: SoftStale(cfg, c, now) && !LeaseExpired(c, now))
            <==> flush + SoftStaleSeconds(cfg) < claimedAt + 60 * LockMinutes(cfg, job)
  {
    var c := Claimed(cfg, job, worker, claimedAt, flush);
    var now := flush + SoftStaleSeconds(cfg) + 1;
    assert SoftStale(cfg, c, now);
    assert !LeaseExpired(c, now) <==> now <= claimedAt + 60 * LockMinutes(cfg, job);
  }

  /** With the shipped settings it can on the backfill queue, where the lease lasts 34
      minutes and the soft rule waits 30, and cannot on the live queue, where the lease
      lasts 17. */
  lemma SoftRecoveryCanPrecedeLeaseExpiry(cfg: Settings, job: Job, worker: string, now: int)
    requires cfg.fetchTimeout == 900 && cfg.backfillLockMinutes == 20 && cfg.liveLockMinutes == 8
    requires job.parser == TELEGRAM && OnTelegramQueue(job)
    ensures var c := Claimed(cfg, job, worker, now, now);
            (exists later :: SoftStale(cfg, c, later) && !LeaseExpired(c, later))
            <==> EffectiveQueue(job) == TELEGRAM_BACKFILL
  {
    SoftRulePrecedesLeaseIff(cfg, job, worker, now, now);
    assert TELEGRAM_BACKFILL != TELEGRAM_LIVE by { assert |TELEGRAM_BACKFILL| != |TELEGRAM_LIVE|; }
  }

  // ---- Capacity -------------------------------------------------------------

  function ParallelLimit(cfg: Settings, job: Job, account: Option<Account>): (limit: int)
    ensures limit >= 1
  {
    var queue := EffectiveQueue(job);
    var telegram := account.Some? && account.value.parser == TELEGRAM;
    var parallel :=
      if telegram
      then Max(if account.value.parallel.Some? then account.value.parallel.value else cfg.telegramParallel, 1)
      else Max(cfg.darknetParallel, 1);
    var backfillParallel :=
      if telegram
      then Max(if account.value.backfillParallel.Some? then account.value.backfillParallel.value
               else cfg.telegramBackfillParallel, 1)
      else 1;
    if queue == TELEGRAM_LIVE then parallel
    else if queue == TELEGRAM_BACKFILL then backfillParallel
    else if queue == DARKNET then Max(cfg.darknetParallel, 1)
    else if queue == WEB then Max(cfg.webParallel, 1)
    else 1
  }

  // ---- Outcomes -------------------------------------------------------------

  function Pow2(n: nat): nat {
    if n == 0 then 1 else 2 * Pow2(n - 1)
  }

  function MaxBackoff(cfg: Settings, job: Job): int {
    var queue := EffectiveQueue(job);
    if queue == TELEGRAM_LIVE then Max(cfg.liveBackoffMax, 1)
    else if queue == TELEGRAM_BACKFILL then Max(cfg.backfillBackoffMax, 1)
    else if queue == DARKNET then Max(cfg.darknetBackoffMax, 1)
    else if queue == WEB then Max(cfg.webBackoffMax, 1)
    else 300
  }

  function Backoff(cfg: Settings, job: Job): int {
    Min(MaxBackoff(cfg, job), Pow2(Max(job.attempt, 0)))
  }

  function FailedRow(cfg: Settings, job: Job, now: int, flush: int): Job {
    if job.attempt >= job.maxAttempts
    then Released(job, Failed, job.runAfter, flush)
    else Released(job, Retry, now + Backoff(cfg, job), flush)
  }

  /** A deferral puts back the attempt count the worker saw when it claimed. */
  function DeferredRow(job: Job, seenAttempt: int, seconds: int, now: int, flush: int): Job {
    Released(job, Retry, now + Max(seconds, 1), flush).(attempt := Max(seenAttempt - 1, 0))
  }

  function CompletedRow(job: Job, flush: int): Job {
    Released(job, Succeeded, job.runAfter, flush)
  }

  function ResetRow(job: Job, now: int): Job {
    Released(job, Retry, now, now).(attempt := 0)
  }

  function StoppedRow(job: Job, now: int): Job {
    Released(job, Failed, job.runAfter, now)
  }

  // ---- Keys -----------------------------------------------------------------

  function OnboardKey(target: int): string {
    ONBOARD_PREFIX + PrintInt(target)
  }

  lemma OnboardKeyInjective(a: int, b: int)
    requires OnboardKey(a) == OnboardKey(b)
    ensures a == b
  {
    assert OnboardKey(a)[|ONBOARD_PREFIX|..] == PrintInt(a);
    assert OnboardKey(b)[|ONBOARD_PREFIX|..] == PrintInt(b);
    PrintIntInjective(a, b);
  }

  // ---- What the rules amount to ---------------------------------------------

  /** A claim on the live queue lasts the fewest minutes that are at least the setting's, at
      least five, and more than a minute past the fetch budget; on the backfill queue half
      of them are. The other queues have the setting's and at least five, or fifteen. */
  lemma LeaseIsLeast(cfg: Settings, job: Job, worker: string, now: int, flush: int, m: int)
    ensures var budget := Max(cfg.fetchTimeout, 30);
            var c := Claimed(cfg, job, worker, now, flush);
            var enough := c.lockExpires.Some? && now + 60 * m >= c.lockExpires.value;
            && (job.queue == "telegram_live" ==>
                  (enough <==> m >= cfg.liveLockMinutes && m >= 5 && 60 * m > budget + 60))
            && (job.queue == "telegram_backfill" ==>
                  (enough <==> m >= cfg.backfillLockMinutes && m >= 10 && 60 * (m / 2) > budget + 60))
            && (job.queue == "darknet" ==> (enough <==> m >= cfg.darknetLockMinutes && m >= 5))
            && (job.queue == "web" ==> (enough <==> m >= cfg.webLockMinutes && m >= 5))
            && (job.queue !in {"", "telegram_live", "telegram_backfill", "darknet", "web"} ==> (enough <==> m >= 15))
  {
    assert |TELEGRAM_LIVE| == 13 && |TELEGRAM_BACKFILL| == 17 && |DARKNET| == 7 && |WEB| == 3;
  }

  /** The wait after a failure that leaves attempts. */
  function RetryDelay(cfg: Settings, job: Job, now: int, flush: int): int {
    FailedRow(cfg, job, now, flush).runAfter - now
  }

  /** Two seconds after the first attempt, twice as long after each further one, and never
      longer than the queue's setting, or than five minutes on a queue that has none. */
  lemma BackoffDoubles(cfg: Settings, job: Job, now: int, flush: int)
    requires 1 <= job.attempt < job.maxAttempts - 1
    ensures var longest := if job.queue == "telegram_live" then Max(cfg.liveBackoffMax, 1)
                           else if job.queue == "telegram_backfill" then Max(cfg.backfillBackoffMax, 1)
                           else if job.queue == "darknet" then Max(cfg.darknetBackoffMax, 1)
                           else if job.queue == "web" then Max(cfg.webBackoffMax, 1)
                           else 300;
            job.queue != "" ==>
              && RetryDelay(cfg, job.(attempt := 1), now, flush) == Min(longest, 2)
              && RetryDelay(cfg, job.(attempt := job.attempt + 1), now, flush)
                 == Min(longest, 2 * RetryDelay(cfg, job, now, flush))
  {
    assert Pow2(1) == 2;
    assert Pow2(job.attempt + 1) == 2 * Pow2(job.attempt);
  }

  /** When a job can be claimed again: at once after a recovery or a manual retry, which
      also forgets its attempts; after the deferral's seconds, one at least; after the
      retry delay while attempts are left; and never after it succeeded, ran out of
      attempts or was stopped. */
  lemma WhenDue(cfg: Settings, job: Job, seen: int, seconds: int, now: int, flush: int, t: int)
    ensures Claimable(Recovered(job, now, flush), t) <==> t >= now
    ensures Claimable(ResetRow(job, now), t) <==> t >= now
    ensures ResetRow(job, now).attempt == 0
    ensures Claimable(DeferredRow(job, seen, seconds, now, flush), t) <==> t >= now + seconds && t >= now + 1
    ensures Claimable(FailedRow(cfg, job, now, flush), t) <==>
              job.attempt < job.maxAttempts && t >= now + RetryDelay(cfg, job, now, flush)
    ensures job.attempt >= job.maxAttempts ==> FailedRow(cfg, job, now, flush).status == Failed
    ensures CompletedRow(job, flush).status == Succeeded && !Claimable(CompletedRow(job, flush), t)
    ensures StoppedRow(job, now).status == Failed && !Claimable(StoppedRow(job, now), t)
  {}
}
