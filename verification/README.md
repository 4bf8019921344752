# A verified model of the collection engine

The system collects messages from Telegram channels. Workers take jobs from one
table under a lease, a scheduler and the API put jobs there, an onboarding job
finds an account for a channel, and collection jobs move cursors and fill two
stores: the event table and its ClickHouse mirror. This project models that
engine and proves what it promises over whole runs.

`dafny verify dfyconfig.toml` checks everything.

How the model is built:

- **Job queue.** `JobModel` holds the rules for one row, `JobSteps` what one
  query or loop does to the table, `JobTable` the loops themselves as a class
  that updates the table in place. `JobProtocol` is the state machine: every
  step is one committed transaction, a claim and its outcome are two steps, any
  number of workers interleave, and there is no fencing. `Capacity`,
  `LeaseSafety`, `Ledger`, `KeyDiscipline` and `NoStranded` prove properties of
  all its runs; `Counterexamples` has the runs that show why their conditions
  are there. `WorkerLoop` composes the loops into a worker whose poll and finish
  are exactly the protocol's steps.
- **Onboarding.** `JoinPacing`, with the bounds on any 24 hours in `SlidingDay` for
  whole-second readings and in `FractionDay` for the clock the code reads, and the
  runs that reach them in `PacingLimits` and `FractionLimits`; `AccountPool`,
  `Links`, `Onboarding`, `Liveness` and `Identifiers`.
- **Cursors.** `FullBackfill`, `RangeBackfill`, `Comments`, and `GenerateJobs`,
  which builds the job requests that feed `JobProtocol`. `BackfillQueue` runs the
  full backfill and the queue together and derives from the one what the other asks.
- **Stores.** `EventSink`, `Mirror`, `Cursor` and `Paging`.

Times are whole seconds in the queue and microseconds where truncation matters
(the pacing modules, `AccountPool`, `RangeBackfill`). A worker's name stands for
one run of its process; the code never reads the name in a row, so a restart
under the old name is a new worker. The messenger, the probes, the
database's choice of rows under `SKIP LOCKED` and every clock reading are
parameters of the steps, so the theorems hold for all their values.

Where the code does less than one might expect, the model follows the code:

- A worker that finishes after its lease was taken back still writes the row. One
  such finish gives two active jobs of one key and charges an attempt twice
  (`Counterexamples.LateFinishBreaksKeysAndBooks`). The theorems that need it
  therefore speak of runs whose finishes are made by the current holder, and on
  the two Telegram queues `LeaseSafety.TimelyRunIsHeldRun` derives that from
  finishing within the fetch budget and a minute. The exact condition for one
  finish is `KeyDiscipline.FinishKeepsOneActiveIff` and `Ledger.FinishKeepsBalanceIff`.
- A success keeps its charge, so between manual resets
  attempt = failures + successes + recoveries + (1 if running).
- A manual retry, single or bulk, can give two active jobs of one key
  (`Counterexamples.RetryBreaksKeys`); `KeyDiscipline.RetryKeepsOneActiveIff` and
  `KeyDiscipline.BulkRetryKeepsOneActiveIff` say exactly when it does not.
- The soft-stale rule can take a row back before its lease ends, exactly when its
  delay ends before the lease (`JobModel.SoftRulePrecedesLeaseIff`): with the
  shipped settings on the backfill queue and not on the live queue.
- Waits are cut to whole seconds, so a join can come up to a second early
  (`JoinPacing.GapWaitIff`, `JoinPacing.EarlyJoinHappens`). On a clock with
  fractions, which the code's is, a window then holds one join more than the limit,
  and only if the gap is two seconds or more (`FractionLimits.OneMoreIff`).
- On that clock 24 hours can hold more than twice the daily limit even when every
  reading is in order: the shipped ten joins a day and 900 seconds allow 21
  (`FractionLimits.TwentyOneJoins`). Call a gap less a second and plus a microsecond
  the short gap. Twice the limit holds exactly when that many short gaps fill a day
  (`FractionLimits.TwiceHoldsOnAnyClockIff`).
- Clock readings can arrive out of order, because a job reads the clock before it
  waits for the account's row. A reading is late by what it lies before the start of the
  window its join is counted in. On the code's clock any 24 hours hold at most twice
  the limit and one exactly while no reading is later than `daily` short gaps and a
  microsecond (8990.000011 seconds as shipped), or when the gap alone keeps more out
  (`FractionLimits.OneMoreADayIff`). On whole-second readings they hold at most twice
  the limit exactly while none is later than (daily - 1) gaps and a second, or when
  the gap alone does (`PacingLimits.TwiceHoldsIff`): 8101 seconds as shipped, one
  second for one join a day.
- An account can be free up to a second before the announced pool wait ends; the
  exact instant is in `AccountPool.PositiveWaitIsExact`.
- The user's stop strands a queued target (`Counterexamples.StopStrandsQueuedTarget`);
  `NoStranded.StopKeepsServedIff` says exactly when it does not.
- A retried batch of a full backfill can move the saved offset back up
  (`FullBackfill.RetriedJobRaisesOffset`) and can take an account that was done
  back to work (`FullBackfill.RetriedJobUndoesDone`). No message is lost by it.
  `FullBackfill.SuccessMovesOnIff` says exactly when a success moves on, for fresh,
  reading and finished accounts.
- The mirror agrees with the event table exactly when no external id spells the
  key of an unnamed event of the same target (`Mirror.BackfillConvergesIff`).
- Paging loses rows exactly when two hits that share time and key meet at the end of
  a page (`Paging.CompleteIff`), which a search over several channels allows
  (`Paging.WideSearchCanLoseARow`).
- The worker's flags match the written rows exactly when every event with a null or
  empty external id was written (`EventSink.PersistAndFlag`).

## Model

| member | source | states |
|---|---|---|
| JobModel.ReclaimOnlyAfterBudget | app/services/worker.py:47-60 | a row claimed on a Telegram queue is stale, by lease or soft-stale rule, only more than a minute past the fetch budget |
| JobModel.SoftRulePrecedesLeaseIff | app/services/worker.py:196-216 | exactly when the soft-stale rule can take a claim back while its lease still runs, for every setting |
| JobModel.SoftRecoveryCanPrecedeLeaseExpiry | app/services/worker.py:47-60 | with the shipped settings it can on the backfill queue and cannot on the live queue |
| JobModel.LeaseIsLeast | app/services/worker.py:47-60 | how long a claim lasts on each queue: the fewest minutes that reach the setting, the minimum and, for Telegram, more than a minute past the fetch budget |
| JobModel.BackoffDoubles | app/services/worker.py:278-300 | a failed job waits two seconds, then twice as long each time, up to its queue's longest wait |
| JobModel.WhenDue | app/services/worker.py:196-300 | exactly from when a job can be claimed after a recovery, deferral, failure, manual retry, success or stop |
| JobModel.OnboardKeyInjective | app/services/telegram_onboarding.py:142-167 | onboarding keys of different targets differ |
| JobSteps.Pick | app/services/worker.py:99-146 | the claimed candidate has room; none is claimed only if no candidate has room |
| JobSteps.PickIsFirst | app/services/worker.py:99-146 | the claimed candidate is the first of the scan with room |
| JobSteps.EnqueueKeepsRows | app/services/scheduler.py:17-90 | a batch changes no old row, and created + skipped is the number of specs |
| JobSteps.EnqueueAddsAdmitted | app/services/scheduler.py:17-90 | every row a batch adds comes from a spec nothing blocked |
| JobSteps.EnqueueNewKeysDiffer | app/services/scheduler.py:17-90 | a batch with distinct keys adds at most one row per key although its queries see the table as it was before |
| JobSteps.EnqueueServes | app/services/scheduler.py:17-90 | every spec that nothing blocks gets a row |
| JobSteps.SpecGetsRowIff | app/services/scheduler.py:17-66 | a keyed spec gets a row exactly when every job of its key is as old as its interval and none is under way, or none exists at all for a date range |
| JobSteps.CreatedAreTheUnblocked | app/services/scheduler.py:17-90 | any batch, keys or not, creates as many jobs as it has specs that nothing blocks; without a key, no job of the target, account and parser is under way |
| JobSteps.AbandonedIff | app/services/scheduler.py:36-66 | a batch fails exactly when a spec old enough finds two jobs in its way |
| JobSteps.RowOfSpec | app/services/job_routing.py:24-55 | the queue, attempts, identity and due time of the row a spec gets |
| JobSteps.StopEnds | app/routers/api.py:2225-2254 | exactly the target's pending and retry jobs of the parser end as failed |
| JobTable.Table.RecoverStale | app/services/worker.py:196-230 | exactly the stale scanned rows go back to retry; the rest stay |
| JobTable.Table.LockNext | app/services/worker.py:99-146 | the loop claims what Pick chooses on the table the transaction found, and nothing else changes |
| JobTable.Table.LockById | app/services/worker.py:149-193 | the claim by id decides as the scan of that one job would |
| JobTable.Table.Complete | app/services/worker.py:233-238 | the row ends as succeeded whoever holds it; no other row changes |
| JobTable.Table.Fail | app/services/worker.py:278-300 | retry with back-off while attempts are left, else failed |
| JobTable.Table.Defer | app/services/worker.py:426-440 | the row waits again with the attempt count the worker saw, less one |
| JobTable.Table.EnqueueSpecs | app/services/scheduler.py:17-90 | the loop leaves the table of EnqueueAll; on a query that finds several rows the batch is given up |
| JobTable.Table.StopTarget | app/routers/api.py:2225-2254 | the target's waiting jobs end as failed, running ones stay |
| JobTable.Table.RetryFailed | app/routers/api.py:2273-2300 | the listed failed jobs are reset, all others stay |
| JobTable.Table.RetrySingle | app/routers/api.py:2304-2332 | a job that does not run is reset, a running one is refused |
| WorkerLoop.Worker.PollOnce | app/services/worker.py:461-476 | recovery, then the claim on the table as it was before it, is exactly the protocol's poll |
| WorkerLoop.Worker.FinishOnce | app/services/worker.py:278-308 | the outcome, with the onboarding step its last failure writes, is exactly the protocol's finish |
| JobProtocol.EveryRunKeepsInv | app/services/worker.py:461-476 | in every run, a worker's name standing for one run of its process, each running row is as the latest claim of its holder wrote it |
| JobProtocol.IdentityIsFixed | app/services/worker.py:331-458 | no step removes a job or changes its target, account, key or queue |
| JobProtocol.NewRowIsAdmitted | app/services/scheduler.py:17-90 | every new row of every enqueuing step was asked for and blocked by nothing |
| Capacity.ClaimKeepsTier | app/services/worker.py:122-144 | a claim passes only while fewer live jobs than its own limit run on the account, so no tier overflows |
| Capacity.StaircaseCapacity | app/services/worker.py:63-96 | in every reachable state, for every account and every l, at most l live jobs have a limit of at most l |
| Capacity.QueueStaysWithinItsLimit | app/services/worker.py:173-193 | no queue of an account runs more live jobs than its limit |
| Capacity.TelegramLimits | app/services/telegram_accounts.py:95-111 | in every run a Telegram account runs at most its own number of live jobs, else the setting's, on the live and on the backfill queue |
| Capacity.OtherLimits | app/services/worker.py:63-84 | in every run an account runs at most the setting's number on the darknet and web queues, and one job on any other |
| Capacity.FirstIsClaimedIff | app/services/worker.py:122-144 | the first candidate of a free account is claimed exactly when fewer other live jobs run there than its queue's number |
| Capacity.FirstWithoutAccount | app/services/worker.py:122-144 | without an account it is always claimed, with one that is gone or locked never |
| LeaseSafety.HeldIsFresh | app/services/worker.py:196-216 | a held Telegram row is not stale before its claim's deadline |
| LeaseSafety.RecoveryWaitsForDeadline | app/services/worker.py:196-230 | a recovery takes a Telegram job from its holder only after the fetch budget and a minute |
| LeaseSafety.StuckIsRecoveredIff | app/services/worker.py:196-230 | a scanned running job is freed exactly when its lease is over or, for Telegram, its row is older than twice the fetch timeout and ten minutes; then it is due at once |
| LeaseSafety.ExpiredClaimIsRecovered | app/services/worker.py:196-230 | in every run, whoever held a job, a scan after its lease frees it |
| LeaseSafety.TimelyIff | app/plugins/telegram.py:788-806 | in time means committed at most a minute after the fetch budget of the claim |
| LeaseSafety.TimelyRunKeepsClaimsSafe | app/services/worker.py:461-476 | with in-time finishes every open claim on a Telegram job still holds its row or is past its deadline |
| LeaseSafety.TimelyFinishIsHeld | app/services/worker.py:233-238 | an in-time finish is made by the holder, on the attempt it claimed, although nothing checks it |
| LeaseSafety.TimelyRunIsHeldRun | app/services/worker.py:461-476 | so timeliness alone gives exclusivity on the Telegram queues |
| Ledger.HeldRunIsHonest | app/services/worker.py:278-300 | each claim is closed at most once and by its own worker or by recovery, attempts equal failures + successes + recoveries + running, and the failure path is taken at most max_attempts times, the last time ending the job |
| Ledger.TimelyTelegramRunIsHonest | app/plugins/telegram.py:788-806 | the same for Telegram jobs in every run with in-time finishes |
| Ledger.DeferralIsFree | app/services/worker.py:426-440 | a deferral gives back the count of before the claim and its clamp at zero never bites |
| Ledger.FinishKeepsBalanceIff | app/services/worker.py:233-238 | exactly which finishes, late ones included, keep the books balanced |
| Ledger.FinishKeepsFailuresIff | app/services/worker.py:278-300 | exactly which finishes, late ones included, keep the failures within max_attempts |
| KeyDiscipline.EveryRunIsSpaced | app/services/scheduler.py:22-46 | in every run a range key has at most one job ever, and jobs of a key with interval s are created at least s apart |
| KeyDiscipline.OneActiveJobPerKey | app/services/scheduler.py:36-66 | at most one active job per key over runs without manual retry whose finishes are the holders' |
| KeyDiscipline.OneActiveTelegramJobPerKey | app/services/scheduler.py:36-66 | on the Telegram queues in-time finishes are enough |
| KeyDiscipline.FinishKeepsOneActiveIff | app/services/worker.py:278-300 | exactly when a finish, late or not, leaves one active job of the key |
| KeyDiscipline.RetryKeepsOneActiveIff | app/routers/api.py:2304-2332 | exactly when a manual retry does |
| KeyDiscipline.BulkRetryKeepsOneActiveIff | app/routers/api.py:2273-2300 | exactly when the bulk retry does |
| KeyDiscipline.EnqueueIsNeverAbandoned | app/services/scheduler.py:36-58 | then no query that allows one row finds two, so no keyed batch fails |
| NoStranded.NoTargetIsStranded | app/services/telegram_onboarding.py:99-169 | over every run without a user stop, a target in step queued, resolving or joining has an active onboarding job |
| NoStranded.OnboardEnqueueServes | app/services/telegram_liveness.py:40-79 | asking for an onboarding job leaves an active one, new or old |
| NoStranded.StopKeepsServedIff | app/routers/api.py:2225-2254 | exactly when a stop leaves the target served |
| NoStranded.OnboardOutcome | app/services/telegram_onboarding.py:99-169 | asking for onboarding makes a target active and queued, the scheduler queues an idle one, each with a job, and leaves others alone |
| NoStranded.FailoverOutcome | app/services/telegram_liveness.py:40-79 | a failover requeues an active target of a shared account with a job, and puts any other to rest |
| Counterexamples.StopStrandsQueuedTarget | app/routers/api.py:2225-2254 | a run in which a stop strands a queued target |
| Counterexamples.LateFinishBreaksKeysAndBooks | app/services/worker.py:278-300 | a run without manual retry in which one late failure gives two active jobs of a key and unbalances the books |
| Counterexamples.RetryBreaksKeys | app/routers/api.py:2273-2332 | a run with every finish in time after which either retry gives two active jobs of a key |
| JoinPacing.PacedAccount.RefreshJoinWindow | app/services/telegram_onboarding.py:292-296 | the window restarts when there is none or it is a day old |
| JoinPacing.PacedAccount.JoinPacingWaitSeconds | app/services/telegram_onboarding.py:299-315 | the wait is the longer of gap and window wait in whole seconds, never negative |
| JoinPacing.PacedAccount.RegisterJoin | app/services/telegram_onboarding.py:331-334 | a join is counted in the refreshed window |
| JoinPacing.GapWaitIff | app/services/telegram_onboarding.py:299-315 | exactly when the gap lets a join through |
| JoinPacing.WaitIsExact | app/services/telegram_onboarding.py:299-315 | a wait is exact: from an instant in its last second on, and not before, the limiter lets the join through |
| JoinPacing.GapWaitIs | app/services/telegram_onboarding.py:299-315 | below the limit the wait is the rest of the gap in whole seconds |
| JoinPacing.NoLimitNeverFree | app/services/telegram_onboarding.py:299-315 | with no joins allowed each window's end starts another day's wait |
| JoinPacing.JoinsAreApart | app/services/telegram_onboarding.py:299-334 | in every run joins are more than min_gap - 1 seconds apart, and at least min_gap on a whole-second clock, even with readings out of order |
| JoinPacing.EarlyJoinHappens | app/services/telegram_onboarding.py:299-315 | the lost second is real |
| JoinPacing.WindowHoldsDailyLimit | app/services/telegram_onboarding.py:292-334 | every window of every run holds at most the daily limit on whole-second clocks, one more at most on fractional clocks with a gap of two seconds |
| FractionLimits.OneMoreIff | app/services/telegram_onboarding.py:299-315 | on fractional clocks one join more is the bound exactly when the gap is at least two seconds, whatever the limit |
| SlidingDay.LatenessIff | app/services/telegram_onboarding.py:318-334 | the lateness checked before each join and the lateness of the recorded joins agree |
| JoinPacing.MonotoneClockIsInOrder | app/services/telegram_onboarding.py:318-328 | on a clock that never goes back no join is late |
| SlidingDay.SlidingDayHoldsTwiceTheLimit | app/services/telegram_onboarding.py:292-334 | on whole-second readings in any order and harmlessly late, any 24 hours hold at most twice the daily limit |
| PacingLimits.TwiceHoldsIff | app/services/telegram_onboarding.py:292-334 | on whole-second readings twice the daily limit holds for every run with readings at most so late exactly when that lateness is harmless, for all limits and gaps, a negative gap counting as none |
| PacingLimits.ShippedSettings | app/config.py:56-57 | on whole-second readings harmless is 8101 seconds for ten joins a day, one second for one |
| PacingLimits.TwoSecondsBreakTwice | app/services/telegram_onboarding.py:292-334 | one join a day and a reading two seconds late: three joins in a day, on whole seconds |
| FractionDay.SlidingDayHoldsOneMore | app/services/telegram_onboarding.py:292-334 | on the clock with fractions that the code reads, with readings in any order and harmlessly late, any 24 hours hold at most twice the daily limit and one |
| FractionLimits.OneMoreADayIff | app/services/telegram_onboarding.py:292-334 | on that clock twice the limit and one holds for every run with readings at most so late exactly when that lateness is harmless, for all limits and gaps |
| FractionLimits.TwiceHoldsOnAnyClockIff | app/services/telegram_onboarding.py:292-334 | on that clock twice the limit holds exactly when the gap alone keeps more out of a day, whether or not readings are in order |
| FractionLimits.ShippedFractions | app/config.py:56-57 | as shipped, 20 joins a day do not hold, and 21 hold exactly up to 8990.000011 seconds of lateness |
| FractionLimits.TwentyOneJoins | app/services/telegram_onboarding.py:292-334 | a run with every reading in order and 21 joins in one day |
| FractionDay.LateDaysWidenTheBound | app/services/telegram_onboarding.py:292-334 | readings up to n days late: any 24 hours hold at most n + 2 times the daily limit on whole-second readings, and one more with fractions |
| AccountPool.PickAccount | app/services/telegram_onboarding.py:261-289 | the pick is an available account, a member for a private chat, and no candidate is strictly better |
| AccountPool.MembersComeFirst | app/services/telegram_onboarding.py:283-289 | an available member is preferred to every non-member however busy |
| AccountPool.PickMayServe | app/services/telegram_onboarding.py:200-216 | the pick is not dead, full or cooling down, and there is one exactly when some account may serve |
| AccountPool.PickIsLeastLoaded | app/services/telegram_accounts.py:76-92 | no account equal to it otherwise has fewer jobs this hour, better health or a shorter queue, up to the bounds |
| AccountPool.TradeOffs | app/services/telegram_accounts.py:76-92 | one queued job weighs as a twentieth of the hourly limit and as 6.25 points of health |
| AccountPool.CooldownWeighs | app/services/telegram_accounts.py:76-92 | a cooldown weighs as the load of twice the hourly limit |
| AccountPool.PickIsEarliest | app/services/telegram_onboarding.py:283-289 | among equals the first of the list is taken |
| AccountPool.PoolRetryWaitSeconds | app/services/telegram_onboarding.py:218-239 | zero exactly when nobody is merely cooling down, else the shortest such wait |
| AccountPool.ZeroWaitMeansNobody | app/services/telegram_onboarding.py:492-499 | an empty pick with wait zero means every account is dead or full for good |
| AccountPool.PositiveWaitIsExact | app/services/telegram_onboarding.py:218-239 | with a wait w the pool is empty up to one instant in the last second before now + w and never after it |
| Onboarding.ChooseAccount | app/services/telegram_onboarding.py:474-499 | which account serves the job, or which deferral or verdict takes its place |
| Onboarding.MayAsk | app/services/telegram_onboarding.py:501-528 | a join call is made only when pacing allows it |
| Onboarding.Settle | app/services/telegram_onboarding.py:575-594 | success leaves the target joined, ready, canonically named and served by the chosen account alone |
| Onboarding.HandleReply | app/services/telegram_onboarding.py:531-594 | each answer of the messenger leads to its step, cooldown, recorded join and deferral |
| Onboarding.RunOnboardJob | app/services/telegram_onboarding.py:460-594 | for every answer: a finished job leaves a verdict step, a deferred one an unfinished step, which is what the run theorems assume of it; a join call is made only when pacing allows it |
| Onboarding.PacingEventIsAStep | app/services/telegram_onboarding.py:318-334 | what the job does to the pacing fields is one step of the pacing history, and one the pacing runs allow except exactly when a member's resolve call is answered with "request sent" during a wait |
| Links.LinkTable.DetachTarget | app/services/telegram_onboarding.py:430-457 | the loop switches off every link of the target and no other |
| Links.LinkTable.DetachAccount | app/services/telegram_liveness.py:40-79 | the loop switches off every link of the account and lists the targets it served |
| Links.LinkTable.LinkTo | app/services/telegram_onboarding.py:430-457 | detach all, then revive the pair's own row or add it |
| Links.LinkingChoosesOne | app/services/telegram_onboarding.py:430-457 | exactly the chosen account is active on the target, other targets keep their rows, and both uniqueness rules hold |
| Links.DetachingClears | app/routers/api.py:2428-2442 | nothing of the target or account stays active, everything else does |
| Links.ServedTargetsAreServed | app/services/telegram_liveness.py:40-79 | a failover moves exactly the targets the account served |
| Links.EveryRunIsSound | app/models.py:463-469 | every run of link, failover, disable, delete and reassign keeps one active link per target and one row per pair |
| Links.LinkingKeepsOthers | app/services/telegram_onboarding.py:430-457 | linking changes no other target's service |
| Liveness.Checker.Judge | app/services/telegram_liveness.py:97-125 | one probe's verdict, and a fallen account loses its links |
| Liveness.Checker.CheckAccounts | app/services/telegram_liveness.py:82-137 | the loop probes the accounts in order and counts them |
| Liveness.RoundIsPerAccount | app/services/telegram_liveness.py:82-137 | each account is judged by its own probe alone and only the fallen ones lose links |
| Liveness.CountsAreExact | app/services/telegram_liveness.py:97-137 | a round counts exactly the accounts that answered and those that fell |
| Liveness.FailoversCountLongRuns | app/services/telegram_liveness.py:97-125 | as many failovers as maximal failing runs of threshold length, and dead exactly while the current run is that long |
| Identifiers.NormalizeIsIdempotent | app/services/telegram_accounts.py:28-51 | normalizing twice is normalizing once |
| Identifiers.InviteLink | app/services/telegram_accounts.py:12-36 | an invite link, plus or joinchat, anywhere in a text without other dots, becomes its hash as written |
| Identifiers.PrivateLink | app/services/telegram_accounts.py:16-40 | a link into a private chat becomes -100 and its number |
| Identifiers.UsernameLink | app/services/telegram_accounts.py:22-44 | a link to a public name becomes an at-sign and the name in small letters |
| Identifiers.BareUsername | app/services/telegram_accounts.py:46-47 | and so does the name behind an at-sign |
| Identifiers.StripOf | app/services/telegram_accounts.py:28-31 | blanks around an identifier make no difference |
| Identifiers.LowerIsSame | app/services/telegram_accounts.py:44-47 | small letters: no capital is left and nothing else changes |
| Identifiers.InviteHashIsKept | app/services/telegram_accounts.py:54-61 | an invite's hash is what follows its prefix, and there is none if nothing does |
| Identifiers.CanonicalIsFixed | app/services/telegram_onboarding.py:356-360 | the canonical name of an entity is its own normal form, so a later lookup finds it |
| Identifiers.ShapesAreDisjoint | app/services/telegram_accounts.py:54-61 | an identifier is never both an invite and a numeric private one |
| FullBackfill.ReadRoots | app/plugins/telegram.py:532-571 | the loop counts the messages, keeps the smallest id and the first ids for comments |
| FullBackfill.TargetConfig.UpdateFullBackfillState | app/plugins/telegram.py:245-271 | finished when the batch came back short, else the smallest id is the next offset |
| FullBackfill.RunBatch | app/plugins/telegram.py:787-817 | a batch leaves exactly the position in the chat it reached, done when fewer than limit were left |
| FullBackfill.BackfillIsComplete | app/plugins/telegram.py:356-382 | over every interleaving of plans, successes, failures, retries, resets and other writers, every message of the start from the saved offset up is stored exactly once, and all of them once done |
| FullBackfill.EveryRunKeepsInv | app/plugins/telegram.py:810-817 | every offset in use is safe to skip to in every run |
| FullBackfill.SuccessMovesOnIff | app/plugins/telegram.py:245-271 | exactly when a success, of a job planned at any time, lowers the saved offset or ends the backfill, for fresh, reading and finished accounts |
| FullBackfill.PlannedSuccessMovesOn | app/plugins/telegram.py:356-382 | a success of the job planned at the saved offset always does |
| FullBackfill.SuccessesUseLeft | app/plugins/telegram.py:356-382 | over every run whose successes each meet the exact condition of SuccessMovesOnIff, each success uses up what is left, whatever the limits, failures, other accounts, writers and new messages |
| FullBackfill.OnCourseMovesOn | app/plugins/telegram.py:356-382 | runs whose successes are of jobs planned at the saved offset are such runs |
| FullBackfill.DoneInTime | app/plugins/telegram.py:810-817 | so an account is done after one success more than there were and came messages |
| FullBackfill.NextBatchMovesOn | app/plugins/telegram.py:356-382 | until it is done its next batch can be planned and run, and moves on |
| FullBackfill.DoneIff | app/plugins/telegram.py:238-271 | over such runs on a chat at rest the saved offset is that of the messages asked for, and done exactly when more was asked for than there is |
| FullBackfill.DoneIffProduct | app/plugins/telegram.py:238-271 | with one limit: done after n successes exactly when n times the limit exceeds the chat |
| BackfillQueue.AnswerPlansAsSaved | app/plugins/telegram.py:356-382 | a Telegram target's answer asks for batches at the saved offsets only, and another target's for none of this one's |
| BackfillQueue.AccountHasOneActiveBatch | app/services/scheduler.py:36-66 | over every run of queue and backfill without manual retry, reset or late finish, an account has at most one active batch, at its saved offset |
| BackfillQueue.QueuedBackfillIsOnCourse | app/plugins/telegram.py:787-817 | in every such run each success is of the batch planned at the saved offset |
| BackfillQueue.QueuedBackfillIsDoneInTime | app/plugins/telegram.py:810-817 | so under the queue an account is done after one success more than there were and came messages |
| FullBackfill.RetriedJobRaisesOffset | app/routers/api.py:2304-2332 | a run in which a retried first batch moves the saved offset back up |
| FullBackfill.RetriedJobUndoesDone | app/routers/api.py:2304-2332 | a run in which it takes a finished account back to work |
| RangeBackfill.BuildBackfillRanges | app/plugins/telegram.py:214-236 | the loop yields the chunks, none when disabled, in another mode or with an empty range |
| RangeBackfill.ModeOf | app/plugins/telegram.py:193-198 | only the text full, blanks and case aside, is the full mode |
| RangeBackfill.ChunksOf | app/plugins/telegram.py:214-236 | when the range is cut, into pieces of how many days, and when not |
| RangeBackfill.ChunksTile | app/plugins/telegram.py:227-236 | chunks are non-empty, contiguous, full length but the last, and cover the range exactly |
| RangeBackfill.TilingIsUnique | app/plugins/telegram.py:227-236 | no other list of ranges does |
| RangeBackfill.CollectRange | app/plugins/telegram.py:532-537 | stopping at the first older message and skipping newer ones collects exactly the closed range |
| RangeBackfill.FetchIsNewestOfRange | app/plugins/telegram.py:524-537 | a chunk's read is the newest limit messages of its closed range |
| RangeBackfill.ChunkIsWholeIff | app/plugins/telegram.py:524-537 | it is whole exactly when the range holds at most limit messages |
| RangeBackfill.ChunksRefineOneRead | app/plugins/telegram.py:438-456 | whole chunk jobs in any order, repeated or not, store the ids of one read of the range, each once |
| Comments.WalkComments | app/plugins/telegram.py:573-629 | the queue loop ends on cyclic data too, expands each (message, depth) above the bound that a root leads to exactly once, level by level, and emits exactly the ids 1 to comments_depth links below a root, each tagged with its depth and a root it descends from |
| Comments.ReadReplies | app/plugins/telegram.py:589-629 | one message's replies are emitted in order and queued unless too deep |
| Comments.EmittedDescends | app/plugins/telegram.py:582-629 | an emitted comment replies to a message above the bound and carries its depth and a root it descends from |
| Comments.ReachedIsEmitted | app/plugins/telegram.py:582-629 | every such comment is emitted |
| Comments.EmittedIffReachable | app/plugins/telegram.py:573-629 | the ids emitted are exactly those 1 to comments_depth links below a root, cycles or not |
| GenerateJobs.Generate | app/plugins/telegram.py:273-353 | quiet, unlinked, blocked and ready targets each get their status, step and requests, in the accounts' rank order |
| GenerateJobs.RankedIsSorted | app/plugins/telegram.py:316-318 | accounts are visited by falling health, then rising use, then id, each once |
| GenerateJobs.AddAccountJobs | app/plugins/telegram.py:348-456 | one account's requests: its full batch alone, or live, participants and range chunks |
| GenerateJobs.AllRequestsAreNotAlike | app/plugins/telegram.py:348-456 | no two requests of a batch have the same account and kind |
| GenerateJobs.RequestedIff | app/plugins/telegram.py:200-456 | for every linked account that may collect, exactly its full batch alone, or its live job, participants and chunks with their intervals, and nothing for any other |
| GenerateJobs.KeyText | app/plugins/telegram.py:362-445 | the text of every kind of key |
| GenerateJobs.RequestQueues | app/services/job_routing.py:24-40 | backfills and onboarding go to the backfill queue, the rest to the live queue, with that queue's attempts and the request's interval, and only date ranges have run-once keys |
| GenerateJobs.KeyIsReadBack | app/plugins/telegram.py:368-445 | a key tells its account and kind with all parameters, so different requests have different keys |
| GenerateJobs.AnswerIsSchedulable | app/services/scheduler.py:93-134 | every answer is a batch with distinct keys for this target, which is what the run theorems require |
| EventSink.Sink.TryInsert | app/services/event_sink.py:107-140 | the savepoint insert adds the row or changes nothing |
| EventSink.Sink.PersistOne | app/services/event_sink.py:107-149 | skipping known ids gives the same as trying the insert |
| EventSink.Sink.PersistEvents | app/services/event_sink.py:74-157 | the batch equals one-at-a-time insert-if-absent and returns the new events' rows in order, whatever the pre-check missed |
| EventSink.InsertEachAppendsNewOnes | app/services/event_sink.py:74-157 | one at a time, the new rows are those of the new events in order |
| EventSink.WrittenRowsSay | app/services/event_sink.py:104-127 | a written row carries its batch's parser, target, account, owner and time and its event's id, observation time and text |
| EventSink.PersistSplits | app/services/event_sink.py:107-149 | persisting a + b is persisting a, then b |
| EventSink.PersistKeepsIndex | app/models.py:460 | the unique index survives every batch |
| EventSink.RepeatWritesOnlyUnnamed | app/services/event_sink.py:92-149 | repeating a batch writes again exactly its unnamed events |
| EventSink.RepeatOfNamedBatchWritesNothing | app/services/event_sink.py:92-149 | repeating a batch of named events writes nothing |
| EventSink.FlagNew | app/services/worker.py:364-376 | an identified event is flagged at its first occurrence if its id was written |
| EventSink.PersistAndFlag | app/services/worker.py:364-376 | each written identified row is flagged once, and all flags are right exactly when the unidentified events were all written |
| Mirror.KeysDistinctIff | app/services/clickhouse_store.py:140-183 | distinct events have distinct mirror keys exactly when no external id spells a row's key |
| Mirror.GroupByMonth | app/services/clickhouse_store.py:332-337 | every image lands in its month's group, in order, and nothing else does |
| Mirror.MirrorStore.Insert | app/services/clickhouse_store.py:193-205 | the rows go in one after the other, a later one replacing an earlier one with its key |
| Mirror.MirrorStore.InsertEvents | app/services/clickhouse_store.py:193-205 | a failed live insert changes nothing and reports zero |
| Mirror.MirrorStore.InsertByMonth | app/services/clickhouse_store.py:340-361 | the months' blocks go in one after the other, the months in order |
| Mirror.BackfillFromPostgres | app/services/clickhouse_store.py:340-361 | the id-cursor loop ends, counts the rows, and inserts each once, batch by batch and month by month |
| Mirror.BackfillOrderIsAll | app/services/clickhouse_store.py:340-361 | that order of inserts leaves out no row and adds none |
| Mirror.BackfillConvergesIff | app/services/clickhouse_store.py:340-361 | whatever was lost before, afterwards every event is there with its image exactly when nobody impersonates a key |
| Mirror.MirroredFields | app/services/clickhouse_store.py:166-183 | then every event's row says its account, owner, id, text, and its observation time or else its creation time |
| Mirror.EventReachesMirror | app/services/clickhouse_store.py:166-183 | from parser to mirror: a written event is there with its batch's account and owner and its own text and time |
| Mirror.RowKeySpellsNumber | app/services/clickhouse_store.py:176 | an unnamed event's key is pg and its number in 28 hexadecimal digits |
| Mirror.SecondBackfillChangesNothing | app/services/clickhouse_store.py:340-361 | a second backfill in batches of the same size changes nothing, whatever the keys |
| Mirror.AnyLaterBackfillChangesNothing | app/services/clickhouse_store.py:340-361 | while nobody impersonates a key, neither does one in another order |
| Mirror.ImpersonationHappens | app/plugins/whatsapp.py:48 | two WhatsApp messages, one without an id and one whose id spells the other's key: after any backfill the mirror lacks one |
| Cursor.DecodeEncode64 | app/services/clickhouse_store.py:230-241 | URL-safe base64 without padding loss: decoding inverts encoding for all byte strings |
| Cursor.CursorRoundTrip | app/services/clickhouse_store.py:230-241 | decoding an encoded cursor gives back time and key, colons in the key included |
| Cursor.CursorIsInjective | app/services/clickhouse_store.py:230-232 | different places have different cursors |
| Cursor.CursorIsUrlSafe | app/services/clickhouse_store.py:230-232 | a cursor has only URL-safe characters |
| Cursor.AcceptedIff | app/services/clickhouse_store.py:235-241 | any text is accepted exactly when it decodes to the milliseconds of an instant of the years 1 to 9999, a colon and a key |
| Cursor.GarbageIsRefused | app/services/clickhouse_store.py:235-241 | text without a separator in it, and unpadded text cut short, are bad cursors |
| Cursor.KnownVector | app/services/clickhouse_store.py:230-232 | a vector of section 10 of RFC 4648 |
| Cursor.KnownAlphabets | app/services/clickhouse_store.py:230-241 | both spellings of the last two characters |
| Cursor.KnownPadding | app/services/clickhouse_store.py:235-241 | which paddings are accepted, ignored and refused |
| Cursor.KnownCursor | app/services/clickhouse_store.py:230-232 | one cursor in full |
| Paging.LessIsStrictTotal | app/services/clickhouse_store.py:251-289 | the result order is a strict total order on places |
| Paging.KeyLessIff | app/services/clickhouse_store.py:281-289 | keys are compared at the first byte that differs, a prefix first |
| Paging.PageAfterPlace | app/services/clickhouse_store.py:281-310 | the page after a cursor has only hits seen earlier, or at its time with a smaller key, and all of them if it is the last |
| Paging.WalkIsWalkBelow | app/services/clickhouse_store.py:300-310 | following cursors depends only on the place each one names |
| Paging.CompleteIff | app/services/clickhouse_store.py:251-310 | following next_cursor with a limit yields every hit exactly once in order exactly when no two hits of one place meet at the end of a page |
| Paging.WalkVisitsEverything | app/services/clickhouse_store.py:251-310 | with distinct places, any limit yields every hit exactly once in order and ends |
| Paging.PagingIsCompleteIff | app/services/clickhouse_store.py:251-310 | paging is complete for every limit exactly when no two hits share a place |
| Paging.NarrowSearchIsComplete | app/services/clickhouse_store.py:251-310 | a search narrowed to one parser and target is complete |
| Paging.WideSearchCanLoseARow | app/services/clickhouse_store.py:251-310 | a wider one can lose a row |

## Left out

- Error texts, payload contents, priorities and the retry priority of jobs: nothing proved depends on them. In `BackfillQueue` a batch may therefore have the limit of any plan at its offset.
- `_jobs_for_dispatch` and `dispatch_due_jobs`: a filter over due jobs that changes only dispatch stamps.
- `_link_files`, object storage and media download.
- `sync_memberships` and `create_link`: they switch links on and rely on the database index to refuse a second one.
- `app/plugins/darknet.py:347-375` adds a thread's job rows inside the body of a discovery job; the queue's steps have no such step, so the theorems about runs leave those rows out.
- Vanished targets and deleted jobs: the worker's paths for a missing row.
- A job body and its outcome are one step: updates lost between two open transactions on a target's configuration or step are not modelled, nor is clock skew between workers outside `JoinPacing`.
- `find_dialog_match`: whether an account's dialogs contain the chat is the parameter `member`.
- The counters that failover and disable report, and the pool-mode filter behind them.
- A resolve call answered with "join request sent" records a join without a pacing check, as the code does; the pacing theorems are about joins that were checked.
- Identifiers.NormalizeIsIdempotent: ASCII identifiers only; letters and blanks beyond ASCII are not modelled.
- Unicode: identifiers are ASCII, keys are byte strings without the UTF-8 layer, and Python's lenient integer parsing of cursors (blanks, signs, underscores) is stricter here.
- Floating point: the millisecond conversion of cursors is exact, load scores are exact reals.
- The text of dates in range keys is a parameter that must be prefix-free; the month of a mirror row is a parameter.
- Deletion of messages during a full backfill: the chat may only grow.
- The mirror may hold rows of a batch that was rolled back after the live insert; nothing is claimed about extra rows.
- Gap-fill completeness: the saved maximum moves past unread messages, so there is nothing to prove.
- KeyDiscipline.OneActiveJobPerKey: manual retries are excluded, because the handlers do not check the key; RetryKeepsOneActiveIff and BulkRetryKeepsOneActiveIff say when one is harmless.
