/** The collection engine as a state machine. A step is one committed transaction:
    a worker's poll (recovery and claim), a worker's finish (job body and outcome),
    the scheduler's and the API's enqueues, failover, and the user's stop and retry.
    Workers are not fenced: a finish writes the row whether or not the worker still
    holds it. */
module JobProtocol {
  import opened Common
  import opened JobModel
  import opened JobSteps

  datatype OnboardStep = Idle | Queued | Resolving | Joining | Joined | PendingApproval | StepFailed
  {
    /** Steps in which the target waits for its onboarding job. */
    predicate Unfinished() { Queued? || Resolving? || Joining? }

    /** Steps a finished onboarding job leaves. */
    predicate Verdict() { Joined? || PendingApproval? || StepFailed? }
  }

  datatype Target = Target(step: OnboardStep, active: bool)

  /** What a worker remembers of its claim; `seen` is the attempt count it wrote. */
  datatype Claim = Claim(job: int, at: int, seen: int)

  /** How a job body ends; an onboarding body also writes the target's step. */
  datatype Outcome =
    | Done(step: Option<OnboardStep>)
    | Deferred(seconds: int, step: Option<OnboardStep>)
    | Errored

  datatype Event =
    | ClaimedBy(job: int, worker: string)
    | ClosedBy(job: int, worker: string, outcome: Outcome)
    | RecoveredJobs(jobs: set<int>)
    | ResetJobs(jobs: set<int>)

  datatype State = State(clock: int, rows: Rows, nextId: int, inflight: map<string, Claim>,
                         targets: map<int, Target>, log: seq<Event>)

  datatype Config = Config(settings: Settings, accounts: map<int, Account>)

  /** A worker's name stands for one run of its process: one that died and was started
      again under its old name is another worker here. Nothing ever reads the name in a
      row, so this changes no step. */
  datatype Action =
    | Tick(now: int)
    | Poll(worker: string, batch: seq<int>, candidates: seq<int>, lockable: set<int>, now: int, flush: int)
    | Finish(worker: string, outcome: Outcome, now: int, flush: int)
    | Schedule(target: int, parser: string, specs: seq<Spec>, now: int, flush: int)
    | Onboard(target: int, now: int, flush: int)
    | AutoOnboard(target: int, now: int, flush: int)
    | Failover(target: int, shared: bool, now: int, flush: int)
    | SetActive(target: int, active: bool)
    | Stop(target: int, parser: string, now: int)
    | RetryFailed(jobs: set<int>, now: int)
    | RetryOne(job: int, now: int)
  {
    predicate ManualRetry() { RetryFailed? || RetryOne? }
  }

  function Init(): State {
    State(0, map[], 1, map[], map[], [])
  }

  // ---- Steps ----------------------------------------------------------------

  function OnboardSpec(target: int): Spec {
    Spec(target, None, Some(OnboardKey(target)), true, 0, TELEGRAM_BACKFILL, 20, None)
  }

  function SetStep(targets: map<int, Target>, target: int, step: OnboardStep): map<int, Target> {
    if target in targets then targets[target := targets[target].(step := step)] else targets
  }

  function SetStepIf(targets: map<int, Target>, target: int, step: Option<OnboardStep>): map<int, Target> {
    if step.Some? then SetStep(targets, target, step.value) else targets
  }

  function AfterRecovery(cfg: Config, s: State, batch: seq<int>, now: int, flush: int): State {
    s.(rows := RecoverRows(cfg.settings, s.rows, batch, now, flush),
       log := s.log + [RecoveredJobs(RecoverySet(cfg.settings, s.rows, batch, now))])
  }

  function AfterClaim(cfg: Config, s: State, j: int, worker: string, now: int, flush: int): State
    requires j in s.rows
  {
    s.(rows := s.rows[j := Claimed(cfg.settings, s.rows[j], worker, now, flush)],
       inflight := s.inflight[worker := Claim(j, now, s.rows[j].attempt + 1)],
       log := s.log + [ClaimedBy(j, worker)])
  }

  /** Recovery and claim share one transaction; the claim's queries see the table as
      it was before the recovery. */
  function DoPoll(cfg: Config, s: State, a: Action): State
    requires a.Poll? && Enabled(cfg, s, a)
  {
    var s1 := AfterRecovery(cfg, s, a.batch, a.now, a.flush).(clock := a.flush);
    var picked := Pick(cfg.settings, s.rows, cfg.accounts, a.lockable, a.candidates, a.now);
    if picked.None? then s1 else AfterClaim(cfg, s1, picked.value, a.worker, a.now, a.flush)
  }

  function FinishedRow(cfg: Config, row: Job, claim: Claim, outcome: Outcome, now: int, flush: int): Job {
    match outcome
    case Done(_) => CompletedRow(row, flush)
    case Deferred(seconds, _) => DeferredRow(row, claim.seen, seconds, now, flush)
    case Errored => FailedRow(cfg.settings, row, now, flush)
  }

  function FinishedTargets(targets: map<int, Target>, row: Job, outcome: Outcome): map<int, Target> {
    match outcome
    case Done(step) => SetStepIf(targets, row.target, step)
    case Deferred(_, step) => SetStepIf(targets, row.target, step)
    case Errored =>
      if row.status.Failed? && row.key.Some? && StartsWith(row.key.value, ONBOARD_PREFIX)
      then SetStep(targets, row.target, StepFailed) else targets
  }

  function DoFinish(cfg: Config, s: State, a: Action): State
    requires a.Finish? && a.worker in s.inflight && s.inflight[a.worker].job in s.rows
  {
    var claim := s.inflight[a.worker];
    var row := FinishedRow(cfg, s.rows[claim.job], claim, a.outcome, a.now, a.flush);
    s.(clock := a.flush,
       rows := s.rows[claim.job := row],
       inflight := s.inflight - {a.worker},
       targets := FinishedTargets(s.targets, row, a.outcome),
       log := s.log + [ClosedBy(claim.job, a.worker, a.outcome)])
  }

  /** A transaction that enqueues specs and sets the targets; abandoned as a whole
      when the enqueue is. */
  function DoEnqueue(cfg: Config, s: State, targets: map<int, Target>, parser: string, specs: seq<Spec>,
                     now: int, flush: int): State
  {
    var b := EnqueueAll(cfg.settings, s.rows, s.nextId, parser, specs, now, flush);
    if b.None? then s.(clock := flush)
    else s.(clock := flush, rows := b.value.rows, nextId := b.value.nextId, targets := targets)
  }

  predicate SpecFits(target: int, spec: Spec) {
    && spec.target == target
    && (spec.onboard ==> spec.key == Some(OnboardKey(target)))
    && (spec.key.Some? && StartsWith(spec.key.value, ONBOARD_PREFIX) ==> spec.onboard)
  }

  predicate AllowedOutcome(job: Job, outcome: Outcome) {
    match outcome
    case Done(step) => if job.onboard then step.Some? && step.value.Verdict() else step.None?
    case Deferred(_, step) => if job.onboard then step.Some? && step.value.Unfinished() else step.None?
    case Errored => true
  }

  predicate Enabled(cfg: Config, s: State, a: Action) {
    match a
    case Tick(now) => s.clock <= now
    case Poll(worker, batch, candidates, _, now, flush) =>
      && s.clock <= now <= flush && worker !in s.inflight
      && IsRunningScan(s.rows, batch) && IsCandidateScan(s.rows, candidates, now)
    case Finish(worker, outcome, now, flush) =>
      && s.clock <= now <= flush && worker in s.inflight && s.inflight[worker].job in s.rows
      && AllowedOutcome(s.rows[s.inflight[worker].job], outcome)
    case Schedule(target, _, specs, now, flush) =>
      && s.clock <= now <= flush && DistinctKeys(specs)
      && (forall i :: 0 <= i < |specs| ==> SpecFits(target, specs[i]))
    case Onboard(_, now, flush) => s.clock <= now <= flush
    case AutoOnboard(target, now, flush) => s.clock <= now <= flush && target in s.targets
    case Failover(target, _, now, flush) => s.clock <= now <= flush && target in s.targets
    case SetActive(target, _) => target in s.targets
    case Stop(target, _, now) => s.clock <= now && target in s.targets
    case RetryFailed(jobs, now) => s.clock <= now && forall j :: j in jobs ==> j in s.rows && s.rows[j].status.Failed?
    case RetryOne(job, now) => s.clock <= now && job in s.rows && !s.rows[job].status.Running?
  }

  /** The steps that enqueue, and what they enqueue: the scheduler's specs for a
      target, the API's onboard request, the scheduler's automatic onboarding of an
      idle target, and the re-onboarding of a target that lost a shared account. */
  predicate IsEnqueue(s: State, a: Action) {
    || a.Schedule? || a.Onboard?
    || (a.AutoOnboard? && a.target in s.targets && s.targets[a.target].step.Idle?)
    || (a.Failover? && a.target in s.targets && s.targets[a.target].active && a.shared)
  }

  function EnqueuedTargets(s: State, a: Action): map<int, Target>
    requires IsEnqueue(s, a)
  {
    if a.Schedule? then s.targets
    else if a.Onboard? then s.targets[a.target := Target(Queued, true)]
    else SetStep(s.targets, a.target, Queued)
  }

  function EnqueuedParser(a: Action): string {
    if a.Schedule? then a.parser else TELEGRAM
  }

  function EnqueuedSpecs(s: State, a: Action): seq<Spec>
    requires IsEnqueue(s, a)
  {
    if a.Schedule? then a.specs else [OnboardSpec(a.target)]
  }

  function Next(cfg: Config, s: State, a: Action): State
    requires Enabled(cfg, s, a)
  {
    if IsEnqueue(s, a) then
      DoEnqueue(cfg, s, EnqueuedTargets(s, a), EnqueuedParser(a), EnqueuedSpecs(s, a), a.now, a.flush)
    else if a.Poll? then DoPoll(cfg, s, a)
    else if a.Finish? then DoFinish(cfg, s, a)
    else DoOther(s, a)
  }

  function DoOther(s: State, a: Action): State
    requires !a.Poll? && !a.Finish? && !IsEnqueue(s, a)
    requires a.SetActive? || a.Stop? ==> a.target in s.targets
  {
    match a
    case Tick(now) => s.(clock := now)
    case AutoOnboard(_, _, flush) => s.(clock := flush)
    case Failover(target, _, _, flush) => s.(clock := flush, targets := SetStep(s.targets, target, Idle))
    case SetActive(target, active) => s.(targets := s.targets[target := s.targets[target].(active := active)])
    case Stop(target, parser, now) =>
      s.(clock := now, rows := StopRows(s.rows, parser, target, now),
         targets := s.targets[target := s.targets[target].(active := false)])
    case RetryFailed(jobs, now) =>
      s.(clock := now, rows := ResetRows(s.rows, jobs, now), log := s.log + [ResetJobs(jobs)])
    case RetryOne(job, now) =>
      s.(clock := now, rows := ResetRows(s.rows, {job}, now), log := s.log + [ResetJobs({job})])
  }

  // ---- Runs -----------------------------------------------------------------

  /** A run is a list of actions, each enabled where it happens. */
  predicate IsRun(cfg: Config, run: seq<Action>)
    decreases run, 0
  {
    run == [] ||
    (IsRun(cfg, run[..|run| - 1]) && Enabled(cfg, After(cfg, run[..|run| - 1]), run[|run| - 1]))
  }

  function After(cfg: Config, run: seq<Action>): State
    requires IsRun(cfg, run)
    decreases run, 1
  {
    if run == [] then Init() else Next(cfg, After(cfg, run[..|run| - 1]), run[|run| - 1])
  }

  /** The worker's row is still the one it claimed. */
  predicate Held(s: State, worker: string) {
    && worker in s.inflight && s.inflight[worker].job in s.rows
    && s.rows[s.inflight[worker].job].status.Running?
    && s.rows[s.inflight[worker].job].lockedBy == Some(worker)
  }

  function Deadline(cfg: Config, claim: Claim): int {
    claim.at + FetchBudget(cfg.settings) + 60
  }

  /** The finish commits within the fetch budget and a minute of its claim. */
  predicate TimelyStep(cfg: Config, s: State, a: Action) {
    a.Finish? && a.worker in s.inflight && s.inflight[a.worker].job in s.rows
    && OnTelegramQueue(s.rows[s.inflight[a.worker].job])
    ==> a.flush <= Deadline(cfg, s.inflight[a.worker])
  }

  /** A finish on the given job is made by the worker that still holds it. */
  predicate HeldStep(s: State, a: Action, job: int) {
    a.Finish? && a.worker in s.inflight && s.inflight[a.worker].job == job ==> Held(s, a.worker)
  }

  predicate TimelyRun(cfg: Config, run: seq<Action>)
    requires IsRun(cfg, run)
  {
    run == [] ||
    (TimelyRun(cfg, run[..|run| - 1]) && TimelyStep(cfg, After(cfg, run[..|run| - 1]), run[|run| - 1]))
  }

  predicate HeldRun(cfg: Config, run: seq<Action>, job: int)
    requires IsRun(cfg, run)
  {
    run == [] ||
    (HeldRun(cfg, run[..|run| - 1], job) && HeldStep(After(cfg, run[..|run| - 1]), run[|run| - 1], job))
  }

  // ---- The invariant of every run -------------------------------------------

  predicate KeyShape(job: Job) {
    && (job.onboard ==> job.key == Some(OnboardKey(job.target)))
    && (job.key.Some? && StartsWith(job.key.value, ONBOARD_PREFIX) ==> job.onboard)
  }

  predicate RowsOk(s: State) {
    forall j :: j in s.rows ==>
      j < s.nextId && s.rows[j].maxAttempts >= 1 && KeyShape(s.rows[j]) && s.rows[j].createdAt <= s.clock
  }

  predicate ClaimsOk(s: State) {
    forall w :: w in s.inflight ==> s.inflight[w].job in s.rows && s.inflight[w].at <= s.clock
  }

  /** A running row belongs to the worker whose latest claim it is, exactly as that
      claim wrote it. */
  predicate Owned(cfg: Config, s: State, j: int)
    requires j in s.rows
  {
    var row := s.rows[j];
    row.status.Running? ==>
      && row.lockedBy.Some? && row.lockedBy.value in s.inflight
      && var claim := s.inflight[row.lockedBy.value];
         && claim.job == j && claim.seen == row.attempt && claim.at <= row.updatedAt
         && row.lockExpires == Some(claim.at + 60 * LockMinutes(cfg.settings, row))
  }

  predicate RunningOwned(cfg: Config, s: State) {
    forall j :: j in s.rows ==> Owned(cfg, s, j)
  }

  predicate Inv(cfg: Config, s: State) {
    RowsOk(s) && ClaimsOk(s) && RunningOwned(cfg, s)
  }

  /** What an enqueue step leaves of the old rows: everything. */
  lemma EnqueueKeepsOldRows(cfg: Config, s: State, a: Action)
    requires RowsOk(s) && Enabled(cfg, s, a) && IsEnqueue(s, a)
    ensures forall j :: j in s.rows ==> j in Next(cfg, s, a).rows && Next(cfg, s, a).rows[j] == s.rows[j]
  {
    if EnqueueAll(cfg.settings, s.rows, s.nextId, EnqueuedParser(a), EnqueuedSpecs(s, a), a.now, a.flush).Some? {
      EnqueueKeepsRows(cfg.settings, s.rows, s.nextId, EnqueuedParser(a), EnqueuedSpecs(s, a), a.now, a.flush);
    }
  }

  /** A row that an enqueue step added comes from one of its specs. */
  lemma NewRowIsAdmitted(cfg: Config, s: State, a: Action, j: int) returns (spec: Spec)
    requires RowsOk(s) && Enabled(cfg, s, a) && IsEnqueue(s, a)
    requires j in Next(cfg, s, a).rows && j !in s.rows
    ensures spec in EnqueuedSpecs(s, a) && SpecFits(a.target, spec)
    ensures Admitted(s.rows, EnqueuedParser(a), spec, a.now)
    ensures Next(cfg, s, a).rows[j] == NewRow(cfg.settings, EnqueuedParser(a), spec, a.now, a.flush)
  {
    var specs := EnqueuedSpecs(s, a);
    var i := EnqueueAddsAdmitted(cfg.settings, s.rows, s.nextId, EnqueuedParser(a), specs, a.now, a.flush, j);
    spec := specs[i];
  }

  lemma NewIdsAreFresh(cfg: Config, s: State, a: Action, j: int)
    requires RowsOk(s) && Enabled(cfg, s, a) && IsEnqueue(s, a)
    requires j in Next(cfg, s, a).rows
    ensures j < Next(cfg, s, a).nextId && s.nextId <= Next(cfg, s, a).nextId
  {
    if EnqueueAll(cfg.settings, s.rows, s.nextId, EnqueuedParser(a), EnqueuedSpecs(s, a), a.now, a.flush).Some? {
      EnqueueKeepsRows(cfg.settings, s.rows, s.nextId, EnqueuedParser(a), EnqueuedSpecs(s, a), a.now, a.flush);
    }
  }

  lemma EnqueueKeepsRowsOk(cfg: Config, s: State, a: Action)
    requires RowsOk(s) && Enabled(cfg, s, a) && IsEnqueue(s, a)
    ensures RowsOk(Next(cfg, s, a))
  {
    EnqueueKeepsOldRows(cfg, s, a);
    var s' := Next(cfg, s, a);
    forall j | j in s'.rows
      ensures j < s'.nextId && s'.rows[j].maxAttempts >= 1 && KeyShape(s'.rows[j]) && s'.rows[j].createdAt <= s'.clock
    {
      NewIdsAreFresh(cfg, s, a, j);
      if j !in s.rows {
        var spec := NewRowIsAdmitted(cfg, s, a, j);
      }
    }
  }

  lemma EnqueueKeepsInv(cfg: Config, s: State, a: Action)
    requires Inv(cfg, s) && Enabled(cfg, s, a) && IsEnqueue(s, a)
    ensures Inv(cfg, Next(cfg, s, a))
  {
    EnqueueKeepsRowsOk(cfg, s, a);
    EnqueueKeepsOldRows(cfg, s, a);
    var s' := Next(cfg, s, a);
    forall j | j in s'.rows
      ensures Owned(cfg, s', j)
    {
      if j in s.rows {
        assert Owned(cfg, s, j);
      } else {
        var spec := NewRowIsAdmitted(cfg, s, a, j);
      }
    }
  }

  lemma RecoveryKeepsInv(cfg: Config, s: State, batch: seq<int>, now: int, flush: int)
    requires Inv(cfg, s) && s.clock <= flush
    ensures Inv(cfg, AfterRecovery(cfg, s, batch, now, flush).(clock := flush))
  {
    var s' := AfterRecovery(cfg, s, batch, now, flush).(clock := flush);
    forall j | j in s.rows
      ensures Owned(cfg, s', j)
    {
      assert Owned(cfg, s, j);
    }
  }

  lemma ClaimKeepsInv(cfg: Config, s: State, j: int, worker: string, now: int, flush: int)
    requires Inv(cfg, s) && j in s.rows && s.rows[j].Waiting() && worker !in s.inflight && now <= flush <= s.clock
    ensures Inv(cfg, AfterClaim(cfg, s, j, worker, now, flush))
  {
    var s' := AfterClaim(cfg, s, j, worker, now, flush);
    forall k | k in s.rows
      ensures Owned(cfg, s', k)
    {
      assert Owned(cfg, s, k);
    }
  }

  lemma PollKeepsInv(cfg: Config, s: State, a: Action)
    requires Inv(cfg, s) && a.Poll? && Enabled(cfg, s, a)
    ensures Inv(cfg, DoPoll(cfg, s, a))
  {
    RecoveryKeepsInv(cfg, s, a.batch, a.now, a.flush);
    var s1 := AfterRecovery(cfg, s, a.batch, a.now, a.flush).(clock := a.flush);
    var picked := Pick(cfg.settings, s.rows, cfg.accounts, a.lockable, a.candidates, a.now);
    if picked.Some? {
      ClaimKeepsInv(cfg, s1, picked.value, a.worker, a.now, a.flush);
    }
  }

  lemma FinishKeepsInv(cfg: Config, s: State, a: Action)
    requires Inv(cfg, s) && a.Finish? && Enabled(cfg, s, a)
    ensures Inv(cfg, DoFinish(cfg, s, a))
  {
    var s' := DoFinish(cfg, s, a);
    forall j | j in s'.rows
      ensures Owned(cfg, s', j)
    {
      assert Owned(cfg, s, j);
    }
  }

  lemma OtherKeepsInv(cfg: Config, s: State, a: Action)
    requires Inv(cfg, s) && Enabled(cfg, s, a) && !IsEnqueue(s, a) && !a.Poll? && !a.Finish?
    ensures Inv(cfg, DoOther(s, a))
  {
    var s' := DoOther(s, a);
    forall j | j in s'.rows
      ensures Owned(cfg, s', j)
    {
      assert Owned(cfg, s, j);
    }
  }

  lemma NextKeepsInv(cfg: Config, s: State, a: Action)
    requires Inv(cfg, s) && Enabled(cfg, s, a)
    ensures Inv(cfg, Next(cfg, s, a))
  {
    if IsEnqueue(s, a) {
      EnqueueKeepsInv(cfg, s, a);
    } else if a.Poll? {
      PollKeepsInv(cfg, s, a);
    } else if a.Finish? {
      FinishKeepsInv(cfg, s, a);
    } else {
      OtherKeepsInv(cfg, s, a);
    }
  }

  lemma {:induction false} EveryRunKeepsInv(cfg: Config, run: seq<Action>)
    requires IsRun(cfg, run)
    ensures Inv(cfg, After(cfg, run))
  {
    if run != [] {
      EveryRunKeepsInv(cfg, run[..|run| - 1]);
      NextKeepsInv(cfg, After(cfg, run[..|run| - 1]), run[|run| - 1]);
    }
  }

  // ---- What no step changes about a row -------------------------------------

  predicate SameIdentity(x: Job, y: Job) {
    && x.parser == y.parser && x.target == y.target && x.account == y.account && x.key == y.key
    && x.queue == y.queue && x.onboard == y.onboard && x.minInterval == y.minInterval
    && x.maxAttempts == y.maxAttempts && x.createdAt == y.createdAt
  }

  /** Rows are never deleted, and only their run state changes. */
  lemma IdentityIsFixed(cfg: Config, s: State, a: Action, j: int)
    requires RowsOk(s) && Enabled(cfg, s, a) && j in s.rows
    ensures j in Next(cfg, s, a).rows && SameIdentity(s.rows[j], Next(cfg, s, a).rows[j])
  {
    if IsEnqueue(s, a) {
      EnqueueKeepsOldRows(cfg, s, a);
    } else if a.Poll? {
      PollKeepsIdentity(cfg, s, a, j);
    }
  }

  lemma PollKeepsIdentity(cfg: Config, s: State, a: Action, j: int)
    requires a.Poll? && Enabled(cfg, s, a) && j in s.rows
    ensures j in DoPoll(cfg, s, a).rows && SameIdentity(s.rows[j], DoPoll(cfg, s, a).rows[j])
  {}
}
