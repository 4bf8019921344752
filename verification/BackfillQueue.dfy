/** The full backfill as the job queue runs it: the queue's runs and the backfill's runs
    together. That each success is of the batch planned at the saved offset, which the
    progress theorems of FullBackfill ask for, follows from how the queue works. */
module BackfillQueue {
  import opened Common
  import opened Decimal
  import M = JobModel
  import Q = JobProtocol
  import S = JobSteps
  import K = KeyDiscipline
  import L = LeaseSafety
  import B = FullBackfill
  import G = GenerateJobs

  // ---- Keys -----------------------------------------------------------------

  /** The key of an account's batch at an offset. */
  function FullKey(target: int, account: int, offset: int): string {
    G.KeyOf(target, account, G.FullBatch(offset), (n: int) => "")
  }

  /** An account's keys by offset. */
  function KeysOf(target: int, account: int): int -> string {
    (offset: int) => FullKey(target, account, offset)
  }

  /** How an account's batches are named, by offset; never like an onboarding job. */
  ghost predicate Names(key: int -> string) {
    forall offset :: key(offset) != "" && !StartsWith(key(offset), M.ONBOARD_PREFIX)
  }

  lemma KeysOfAreNames(target: int, account: int)
    ensures Names(KeysOf(target, account))
  {
    forall offset
      ensures FullKey(target, account, offset)[0] == 'b'
    {}
  }

  lemma OnlyFullBatchHasPrefix(kind: G.Kind, offset: int)
    requires G.Prefix(kind) == G.Prefix(G.FullBatch(offset))
    ensures kind.FullBatch?
  {
    assert |G.Prefix(kind)| == 14;
  }

  /** Only a batch has such a key, and the key tells target, account and offset. */
  lemma FullKeyIsReadBack(t: int, a: int, kind: G.Kind, iso: int -> string, target: int, account: int, offset: int)
    requires G.KeyOf(t, a, kind, iso) == FullKey(target, account, offset)
    ensures t == target && a == account && kind == G.FullBatch(offset)
  {
    var full, no := G.FullBatch(offset), (n: int) => "";
    var x, y := ":" + (PrintInt(a) + G.Tail(kind, iso)), ":" + (PrintInt(account) + G.Tail(full, no));
    G.KindIsReadBack(FullKey(target, account, offset), kind, PrintInt(t) + x, full, PrintInt(target) + y);
    OnlyFullBatchHasPrefix(kind, offset);
    G.NumberIsReadBack(t, x, target, y);
    G.CancelLeft(":", PrintInt(a) + G.Tail(kind, iso), ":", PrintInt(account) + G.Tail(full, no));
    G.NumberIsReadBack(a, G.Tail(kind, iso), account, G.Tail(full, no));
    G.CancelLeft(":", PrintInt(kind.offset), ":", PrintInt(offset));
    PrintIntInjective(kind.offset, offset);
  }

  lemma OnboardingKeyIsNoFullKey(t: int, target: int, account: int, offset: int)
    ensures M.OnboardKey(t) != FullKey(target, account, offset)
  {
    assert M.OnboardKey(t)[0] == 'o';
    assert FullKey(target, account, offset)[0] == 'b';
  }

  // ---- What the scheduler plans ---------------------------------------------

  /** The batches with these names that are asked for are at the saved offset. */
  ghost predicate Plans(saved: Option<int>, key: int -> string, parser: string, specs: seq<S.Spec>) {
    forall i, offset :: 0 <= i < |specs| && specs[i].key == Some(key(offset)) ==>
      saved == Some(offset) && specs[i].queue == "" && parser == M.TELEGRAM
  }

  /** Batches of this target are asked for at the offset saved for their account. */
  ghost predicate PlansAsSaved(w: B.World, parser: string, specs: seq<S.Spec>) {
    forall account :: Plans(B.Saved(w, account), KeysOf(w.target, account), parser, specs)
  }

  lemma {:induction false} BatchesAreAtSaved(accounts: seq<G.Account>, settings: G.Settings,
                                             progress: map<int, B.Progress>, r: G.Request)
    requires r in G.AllRequests(accounts, settings, progress) && r.ForAccount? && r.kind.FullBatch?
    ensures B.OffsetOf(progress, r.account) == Some(r.kind.offset)
  {
    var init := accounts[..|accounts| - 1];
    if r in G.AllRequests(init, settings, progress) {
      BatchesAreAtSaved(init, settings, progress, r);
    }
  }

  /** Every Telegram target's answer does so: its own with the progress it has, and
      another target's has no batch of this one. */
  lemma AnswerPlansAsSaved(w: B.World, target: int, rows: seq<G.Account>, quiet: bool, idle: bool, now: int,
                           settings: G.Settings, progress: map<int, B.Progress>, iso: int -> string)
    requires target == w.target ==> progress == w.progress
    ensures PlansAsSaved(w, M.TELEGRAM, G.ToSpecs(target, G.Answer(rows, quiet, idle, now, settings, progress), iso))
  {
    var requests := G.Answer(rows, quiet, idle, now, settings, progress);
    var specs := G.ToSpecs(target, requests, iso);
    forall account, i, offset | 0 <= i < |specs| && specs[i].key == Some(KeysOf(w.target, account)(offset))
      ensures B.Saved(w, account) == Some(offset) && specs[i].queue == ""
    {
      var r := requests[i];
      if r.StartOnboarding? {
        OnboardingKeyIsNoFullKey(target, w.target, account, offset);
      } else {
        FullKeyIsReadBack(target, r.account, r.kind, iso, w.target, account, offset);
        BatchesAreAtSaved(G.Ranked(G.Available(rows, now)), settings, progress, r);
      }
    }
  }

  // ---- Both machines --------------------------------------------------------

  datatype Joint = Joint(queue: Q.State, world: B.World)

  /** A step of the queue alone, a step of the backfill's world alone (its `Plan` fixes the
      limit of a batch), or a worker's finish of a batch that succeeded, which is both. */
  datatype Step =
    | QueueStep(a: Q.Action)
    | WorldStep(b: B.Action)
    | BatchDone(a: Q.Action, b: B.Action)

  /** The worker finishes a batch of this account at this offset. */
  predicate Finishes(x: Joint, a: Q.Action, account: int, offset: int) {
    && a.Finish? && a.outcome.Done? && a.worker in x.queue.inflight && x.queue.inflight[a.worker].job in x.queue.rows
    && x.queue.rows[x.queue.inflight[a.worker].job].key == Some(FullKey(x.world.target, account, offset))
  }

  ghost predicate Enabled(cfg: Q.Config, x: Joint, step: Step) {
    match step
    case QueueStep(a) =>
      && Q.Enabled(cfg, x.queue, a) && (a.Schedule? ==> PlansAsSaved(x.world, a.parser, a.specs))
      && forall account, offset :: !Finishes(x, a, account, offset)
    case WorldStep(b) => B.Enabled(x.world, b) && !b.Succeed?
    case BatchDone(a, b) =>
      && Q.Enabled(cfg, x.queue, a) && B.Enabled(x.world, b)
      && b.Succeed? && Finishes(x, a, b.job.account, b.job.offset)
  }

  ghost function Next(cfg: Q.Config, x: Joint, step: Step): Joint
    requires B.JobsHaveLimits(x.world) && Enabled(cfg, x, step)
  {
    match step
    case QueueStep(a) => Joint(Q.Next(cfg, x.queue, a), x.world)
    case WorldStep(b) => Joint(x.queue, B.Next(x.world, b))
    case BatchDone(a, b) => Joint(Q.Next(cfg, x.queue, a), B.Next(x.world, b))
  }

  ghost predicate IsRun(cfg: Q.Config, w: B.World, run: seq<Step>)
    requires B.JobsHaveLimits(w)
    decreases run, 0
  {
    run == [] ||
    (IsRun(cfg, w, run[..|run| - 1]) && Enabled(cfg, After(cfg, w, run[..|run| - 1]), run[|run| - 1]))
  }

  ghost function After(cfg: Q.Config, w: B.World, run: seq<Step>): (x: Joint)
    requires B.JobsHaveLimits(w) && IsRun(cfg, w, run)
    ensures B.JobsHaveLimits(x.world)
    decreases run, 1
  {
    if run == [] then Joint(Q.Init(), w) else Next(cfg, After(cfg, w, run[..|run| - 1]), run[|run| - 1])
  }

  function QueuePartOf(step: Step): seq<Q.Action> {
    if step.WorldStep? then [] else [step.a]
  }

  function QueuePart(run: seq<Step>): seq<Q.Action> {
    if run == [] then [] else QueuePart(run[..|run| - 1]) + QueuePartOf(run[|run| - 1])
  }

  function WorldPartOf(step: Step): seq<B.Action> {
    if step.QueueStep? then [] else [step.b]
  }

  function WorldPart(run: seq<Step>): seq<B.Action> {
    if run == [] then [] else WorldPart(run[..|run| - 1]) + WorldPartOf(run[|run| - 1])
  }

  // ---- The parts of a run are runs ------------------------------------------

  lemma {:induction false} WorldExtends(w: B.World, actions: seq<B.Action>, b: B.Action)
    requires B.JobsHaveLimits(w) && B.IsRun(w, actions) && B.JobsHaveLimits(B.After(w, actions))
    requires B.Enabled(B.After(w, actions), b)
    ensures B.IsRun(w, actions + [b]) && B.After(w, actions + [b]) == B.Next(B.After(w, actions), b)
    decreases |actions|
  {
    if actions == [] {
      assert actions + [b] == [b] && [b][1..] == [];
      assert B.IsRun(B.Next(w, b), []);
    } else {
      WorldExtends(B.Next(w, actions[0]), actions[1..], b);
      assert (actions + [b])[1..] == actions[1..] + [b];
    }
  }

  lemma {:induction false} CourseExtends(w: B.World, actions: seq<B.Action>, b: B.Action, account: int)
    requires B.JobsHaveLimits(w) && B.IsRun(w, actions) && B.JobsHaveLimits(B.After(w, actions))
    requires B.Enabled(B.After(w, actions), b) && B.OnCourse(w, actions, account)
    requires B.OnCourseStep(B.After(w, actions), b, account)
    ensures B.IsRun(w, actions + [b]) && B.OnCourse(w, actions + [b], account)
    decreases |actions|
  {
    WorldExtends(w, actions, b);
    if actions == [] {
      assert actions + [b] == [b] && [b][1..] == [];
      assert B.IsRun(B.Next(w, b), []) && B.OnCourse(B.Next(w, b), [], account);
    } else {
      CourseExtends(B.Next(w, actions[0]), actions[1..], b, account);
      assert (actions + [b])[1..] == actions[1..] + [b];
    }
  }

  lemma QueueExtends(cfg: Q.Config, run: seq<Q.Action>, a: Q.Action)
    requires Q.IsRun(cfg, run) && Q.Enabled(cfg, Q.After(cfg, run), a)
    ensures Q.IsRun(cfg, run + [a]) && Q.After(cfg, run + [a]) == Q.Next(cfg, Q.After(cfg, run), a)
  {
    assert (run + [a])[..|run + [a]| - 1] == run;
  }

  lemma {:induction false} PartsAreRuns(cfg: Q.Config, w: B.World, run: seq<Step>)
    requires B.JobsHaveLimits(w) && IsRun(cfg, w, run)
    ensures Q.IsRun(cfg, QueuePart(run)) && Q.After(cfg, QueuePart(run)) == After(cfg, w, run).queue
    ensures B.IsRun(w, WorldPart(run)) && B.After(w, WorldPart(run)) == After(cfg, w, run).world
  {
    if run != [] {
      var init, step := run[..|run| - 1], run[|run| - 1];
      PartsAreRuns(cfg, w, init);
      if step.WorldStep? {
        assert QueuePart(run) == QueuePart(init);
      } else {
        QueueExtends(cfg, QueuePart(init), step.a);
      }
      if step.QueueStep? {
        assert WorldPart(run) == WorldPart(init);
      } else {
        WorldExtends(w, WorldPart(init), step.b);
      }
    }
  }

  // ---- Every active batch is at the saved offset ----------------------------

  /** Every job of a batch of the account is on a Telegram queue, and at the saved offset
      while it is active. */
  ghost predicate Current(rows: S.Rows, saved: Option<int>, key: int -> string) {
    forall j :: j in rows ==> CurrentRow(rows[j], saved, key)
  }

  ghost predicate CurrentRow(row: M.Job, saved: Option<int>, key: int -> string) {
    forall offset :: row.key == Some(key(offset)) ==>
      M.OnTelegramQueue(row) && (row.Active() ==> saved == Some(offset))
  }

  lemma BatchIsCurrent(rows: S.Rows, saved: Option<int>, key: int -> string, j: int, offset: int)
    requires Current(rows, saved, key) && j in rows && rows[j].key == Some(key(offset))
    ensures M.OnTelegramQueue(rows[j]) && (rows[j].Active() ==> saved == Some(offset))
  {
    assert CurrentRow(rows[j], saved, key);
  }

  /** A row that became inactive or stays what it was is as current as before. */
  lemma RowStaysCurrent(before: M.Job, after: M.Job, saved: Option<int>, key: int -> string)
    requires CurrentRow(before, saved, key) && after.key == before.key
    requires M.OnTelegramQueue(before) ==> M.OnTelegramQueue(after) && (after.Active() ==> before.Active())
    ensures CurrentRow(after, saved, key)
  {}

  /** A step of the queue that is in time and no manual retry. */
  predicate Orderly(cfg: Q.Config, s: Q.State, a: Q.Action) {
    Q.TimelyStep(cfg, s, a) && !a.ManualRetry()
  }

  lemma OldRowStaysCurrent(cfg: Q.Config, run: seq<Q.Action>, a: Q.Action, j: int)
    requires Q.IsRun(cfg, run) && Q.TimelyRun(cfg, run) && Q.Enabled(cfg, Q.After(cfg, run), a)
    requires Orderly(cfg, Q.After(cfg, run), a)
    requires j in Q.After(cfg, run).rows && M.OnTelegramQueue(Q.After(cfg, run).rows[j])
    ensures var s, s' := Q.After(cfg, run), Q.Next(cfg, Q.After(cfg, run), a);
            && j in s'.rows && s'.rows[j].key == s.rows[j].key && M.OnTelegramQueue(s'.rows[j])
            && (s'.rows[j].Active() ==> s.rows[j].Active())
  {
    var s := Q.After(cfg, run);
    Q.EveryRunKeepsInv(cfg, run);
    Q.IdentityIsFixed(cfg, s, a, j);
    if a.Finish? && s.inflight[a.worker].job == j {
      L.TimelyFinishIsHeld(cfg, run, a);
    }
    if Q.Next(cfg, s, a).rows[j].Active() {
      K.ActiveComesFromActive(cfg, s, a, j);
    }
  }

  lemma NewRowIsCurrent(cfg: Q.Config, s: Q.State, saved: Option<int>, key: int -> string, a: Q.Action, j: int,
                        offset: int)
    requires Q.RowsOk(s) && Q.Enabled(cfg, s, a) && Q.IsEnqueue(s, a) && Names(key)
    requires a.Schedule? ==> Plans(saved, key, a.parser, a.specs)
    requires j in Q.Next(cfg, s, a).rows && j !in s.rows && Q.Next(cfg, s, a).rows[j].key == Some(key(offset))
    ensures M.OnTelegramQueue(Q.Next(cfg, s, a).rows[j]) && saved == Some(offset)
  {
    var spec := Q.NewRowIsAdmitted(cfg, s, a, j);
    assert spec.key == Some(key(offset));
  }

  lemma OnlyEnqueuesAddRows(cfg: Q.Config, s: Q.State, a: Q.Action)
    requires Q.RowsOk(s) && Q.Enabled(cfg, s, a) && !Q.IsEnqueue(s, a)
    ensures Q.Next(cfg, s, a).rows.Keys == s.rows.Keys
  {}

  lemma QueueKeepsCurrent(cfg: Q.Config, run: seq<Q.Action>, saved: Option<int>, key: int -> string, a: Q.Action)
    requires Q.IsRun(cfg, run) && Q.TimelyRun(cfg, run) && Q.Enabled(cfg, Q.After(cfg, run), a)
    requires Orderly(cfg, Q.After(cfg, run), a) && (a.Schedule? ==> Plans(saved, key, a.parser, a.specs)) && Names(key)
    requires Current(Q.After(cfg, run).rows, saved, key)
    ensures Current(Q.Next(cfg, Q.After(cfg, run), a).rows, saved, key)
  {
    var s, s' := Q.After(cfg, run), Q.Next(cfg, Q.After(cfg, run), a);
    Q.EveryRunKeepsInv(cfg, run);
    forall j | j in s'.rows
      ensures CurrentRow(s'.rows[j], saved, key)
    {
      if j in s.rows {
        assert CurrentRow(s.rows[j], saved, key);
        Q.IdentityIsFixed(cfg, s, a, j);
        if M.OnTelegramQueue(s.rows[j]) {
          OldRowStaysCurrent(cfg, run, a, j);
        }
        RowStaysCurrent(s.rows[j], s'.rows[j], saved, key);
      } else {
        if !Q.IsEnqueue(s, a) {
          OnlyEnqueuesAddRows(cfg, s, a);
        }
        forall offset | s'.rows[j].key == Some(key(offset))
          ensures M.OnTelegramQueue(s'.rows[j]) && saved == Some(offset)
        {
          NewRowIsCurrent(cfg, s, saved, key, a, j, offset);
        }
      }
    }
  }

  /** Two active batches are one. */
  lemma OneBatchAtATime(cfg: Q.Config, run: seq<Q.Action>, saved: Option<int>, key: int -> string,
                        i: int, p: int, j: int, q: int)
    requires Q.IsRun(cfg, run) && Q.TimelyRun(cfg, run) && K.NoManualRetry(run)
    requires Current(Q.After(cfg, run).rows, saved, key) && Names(key)
    requires var rows := Q.After(cfg, run).rows;
             && i in rows && rows[i].key == Some(key(p)) && rows[i].Active()
             && j in rows && rows[j].key == Some(key(q)) && rows[j].Active()
    ensures i == j
  {
    var rows := Q.After(cfg, run).rows;
    BatchIsCurrent(rows, saved, key, i, p);
    BatchIsCurrent(rows, saved, key, j, q);
    forall k | k in rows && rows[k].key == Some(key(p))
      ensures M.OnTelegramQueue(rows[k])
    {
      BatchIsCurrent(rows, saved, key, k, p);
    }
    K.OneActiveTelegramJobPerKey(cfg, run, key(p));
  }

  /** A batch that succeeds in time is at the saved offset, and it was the account's only
      one: whatever is saved next, no active batch is at another offset. */
  lemma SuccessKeepsCurrent(cfg: Q.Config, run: seq<Q.Action>, saved: Option<int>, next: Option<int>,
                            key: int -> string, a: Q.Action, offset: int)
    requires Q.IsRun(cfg, run) && Q.TimelyRun(cfg, run) && K.NoManualRetry(run)
    requires Q.Enabled(cfg, Q.After(cfg, run), a) && Orderly(cfg, Q.After(cfg, run), a)
    requires a.Finish? && a.outcome.Done? && Names(key) && Current(Q.After(cfg, run).rows, saved, key)
    requires var s := Q.After(cfg, run); s.rows[s.inflight[a.worker].job].key == Some(key(offset))
    ensures saved == Some(offset) && Current(Q.Next(cfg, Q.After(cfg, run), a).rows, next, key)
  {
    var s, s' := Q.After(cfg, run), Q.Next(cfg, Q.After(cfg, run), a);
    var job := s.inflight[a.worker].job;
    Q.EveryRunKeepsInv(cfg, run);
    QueueKeepsCurrent(cfg, run, saved, key, a);
    BatchIsCurrent(s.rows, saved, key, job, offset);
    L.TimelyFinishIsHeld(cfg, run, a);
    forall j | j in s'.rows
      ensures CurrentRow(s'.rows[j], next, key)
    {
      forall q | s'.rows[j].key == Some(key(q))
        ensures M.OnTelegramQueue(s'.rows[j]) && !s'.rows[j].Active()
      {
        BatchIsCurrent(s'.rows, saved, key, j, q);
        if j != job && s'.rows[j].Active() {
          OneBatchAtATime(cfg, run, saved, key, job, offset, j, q);
          assert false;
        }
      }
    }
  }

  // ---- Runs of both ---------------------------------------------------------

  ghost predicate CurrentIn(x: Joint, account: int) {
    Current(x.queue.rows, B.Saved(x.world, account), KeysOf(x.world.target, account))
  }

  lemma BatchKeepsCurrent(cfg: Q.Config, run: seq<Q.Action>, w: B.World, a: Q.Action, b: B.Action, account: int)
    requires Q.IsRun(cfg, run) && Q.TimelyRun(cfg, run) && K.NoManualRetry(run)
    requires B.JobsHaveLimits(w) && Enabled(cfg, Joint(Q.After(cfg, run), w), BatchDone(a, b))
    requires Orderly(cfg, Q.After(cfg, run), a) && CurrentIn(Joint(Q.After(cfg, run), w), account)
    ensures CurrentIn(Joint(Q.Next(cfg, Q.After(cfg, run), a), B.Next(w, b)), account)
    ensures B.OnCourseStep(w, b, account)
  {
    var saved, next, key := B.Saved(w, account), B.Saved(B.Next(w, b), account), KeysOf(w.target, account);
    KeysOfAreNames(w.target, account);
    if b.job.account == account {
      SuccessKeepsCurrent(cfg, run, saved, next, key, a, b.job.offset);
    } else {
      B.OtherStepKeepsSaved(w, b, account);
      QueueKeepsCurrent(cfg, run, saved, key, a);
    }
    assert Current(Q.Next(cfg, Q.After(cfg, run), a).rows, next, key);
  }

  lemma WorldKeepsCurrent(x: Joint, b: B.Action, account: int)
    requires B.JobsHaveLimits(x.world) && B.Enabled(x.world, b) && !b.Succeed?
    requires (b.Reset? ==> b.account != account) && CurrentIn(x, account)
    ensures CurrentIn(Joint(x.queue, B.Next(x.world, b)), account) && B.OnCourseStep(x.world, b, account)
  {
    assert B.Saved(B.Next(x.world, b), account) == B.Saved(x.world, account);
  }

  /** Finishes on the Telegram queues are in time, nobody retries by hand, and the
      account's progress is not reset. */
  ghost predicate OrderlyRun(cfg: Q.Config, w: B.World, run: seq<Step>, account: int)
    requires B.JobsHaveLimits(w) && IsRun(cfg, w, run)
  {
    run == [] ||
    (&& OrderlyRun(cfg, w, run[..|run| - 1], account)
     && OrderlyStep(cfg, After(cfg, w, run[..|run| - 1]), run[|run| - 1], account))
  }

  predicate OrderlyStep(cfg: Q.Config, x: Joint, step: Step, account: int) {
    && (!step.WorldStep? ==> Orderly(cfg, x.queue, step.a))
    && (step.WorldStep? && step.b.Reset? ==> step.b.account != account)
  }

  lemma StepKeepsCurrent(cfg: Q.Config, run: seq<Q.Action>, x: Joint, step: Step, account: int)
    requires Q.IsRun(cfg, run) && Q.TimelyRun(cfg, run) && K.NoManualRetry(run) && x.queue == Q.After(cfg, run)
    requires B.JobsHaveLimits(x.world) && Enabled(cfg, x, step) && CurrentIn(x, account)
    requires OrderlyStep(cfg, x, step, account)
    ensures CurrentIn(Next(cfg, x, step), account)
    ensures !step.QueueStep? ==> B.OnCourseStep(x.world, step.b, account)
  {
    match step
    case QueueStep(a) =>
      KeysOfAreNames(x.world.target, account);
      QueueKeepsCurrent(cfg, run, B.Saved(x.world, account), KeysOf(x.world.target, account), a);
    case WorldStep(b) => WorldKeepsCurrent(x, b, account);
    case BatchDone(a, b) => BatchKeepsCurrent(cfg, run, x.world, a, b, account);
  }

  lemma {:induction false} QueuePartIsOrderly(cfg: Q.Config, w: B.World, run: seq<Step>, account: int)
    requires B.JobsHaveLimits(w) && IsRun(cfg, w, run) && OrderlyRun(cfg, w, run, account)
    ensures Q.IsRun(cfg, QueuePart(run)) && Q.TimelyRun(cfg, QueuePart(run)) && K.NoManualRetry(QueuePart(run))
  {
    PartsAreRuns(cfg, w, run);
    if run != [] {
      var init, step := run[..|run| - 1], run[|run| - 1];
      PartsAreRuns(cfg, w, init);
      QueuePartIsOrderly(cfg, w, init, account);
      if step.WorldStep? {
        assert QueuePart(run) == QueuePart(init);
      } else {
        OrderlyExtends(cfg, QueuePart(init), step.a);
      }
    }
  }

  lemma OrderlyExtends(cfg: Q.Config, run: seq<Q.Action>, a: Q.Action)
    requires Q.IsRun(cfg, run) && Q.TimelyRun(cfg, run) && K.NoManualRetry(run)
    requires Q.Enabled(cfg, Q.After(cfg, run), a) && Orderly(cfg, Q.After(cfg, run), a)
    ensures Q.IsRun(cfg, run + [a]) && Q.TimelyRun(cfg, run + [a]) && K.NoManualRetry(run + [a])
  {
    QueueExtends(cfg, run, a);
    assert (run + [a])[..|run + [a]| - 1] == run;
  }

  lemma {:induction false} RunKeepsCurrent(cfg: Q.Config, w: B.World, run: seq<Step>, account: int)
    requires B.JobsHaveLimits(w) && IsRun(cfg, w, run) && OrderlyRun(cfg, w, run, account)
    ensures CurrentIn(After(cfg, w, run), account)
  {
    if run != [] {
      var init := run[..|run| - 1];
      PartsAreRuns(cfg, w, init);
      QueuePartIsOrderly(cfg, w, init, account);
      RunKeepsCurrent(cfg, w, init, account);
      StepKeepsCurrent(cfg, QueuePart(init), After(cfg, w, init), run[|run| - 1], account);
    }
  }

  /** In such a run an account has at most one active batch, and that is at the saved
      offset. */
  lemma AccountHasOneActiveBatch(cfg: Q.Config, w: B.World, run: seq<Step>, account: int,
                                 i: int, p: int, j: int, q: int)
    requires B.JobsHaveLimits(w) && IsRun(cfg, w, run) && OrderlyRun(cfg, w, run, account)
    requires var rows, target := After(cfg, w, run).queue.rows, After(cfg, w, run).world.target;
             && i in rows && rows[i].key == Some(FullKey(target, account, p)) && rows[i].Active()
             && j in rows && rows[j].key == Some(FullKey(target, account, q)) && rows[j].Active()
    ensures i == j && B.Saved(After(cfg, w, run).world, account) == Some(p)
  {
    var x := After(cfg, w, run);
    var key := KeysOf(x.world.target, account);
    PartsAreRuns(cfg, w, run);
    QueuePartIsOrderly(cfg, w, run, account);
    RunKeepsCurrent(cfg, w, run, account);
    KeysOfAreNames(x.world.target, account);
    BatchIsCurrent(x.queue.rows, B.Saved(x.world, account), key, i, p);
    OneBatchAtATime(cfg, QueuePart(run), B.Saved(x.world, account), key, i, p, j, q);
  }

  /** In every run of queue and backfill in which nobody retries by hand and finishes on
      the Telegram queues are in time, an account that is not reset succeeds only with
      batches planned at the offset saved when they run. */
  lemma {:induction false} QueuedBackfillIsOnCourse(cfg: Q.Config, w: B.World, run: seq<Step>, account: int)
    requires B.JobsHaveLimits(w) && IsRun(cfg, w, run) && OrderlyRun(cfg, w, run, account)
    ensures B.IsRun(w, WorldPart(run)) && B.OnCourse(w, WorldPart(run), account)
  {
    if run != [] {
      var init, step := run[..|run| - 1], run[|run| - 1];
      PartsAreRuns(cfg, w, init);
      QueuePartIsOrderly(cfg, w, init, account);
      QueuedBackfillIsOnCourse(cfg, w, init, account);
      if step.QueueStep? {
        assert WorldPart(run) == WorldPart(init);
      } else {
        RunKeepsCurrent(cfg, w, init, account);
        StepKeepsCurrent(cfg, QueuePart(init), After(cfg, w, init), step, account);
        CourseExtends(w, WorldPart(init), step.b, account);
      }
    }
  }

  /** So it is done after one success more than there were and came messages, whatever
      else the queue does: recoveries, back-offs, failures, stops and other jobs. */
  lemma QueuedBackfillIsDoneInTime(cfg: Q.Config, w: B.World, run: seq<Step>, account: int)
    requires B.JobsHaveLimits(w) && B.History(w.chat) && IsRun(cfg, w, run) && OrderlyRun(cfg, w, run, account)
    requires B.Successes(WorldPart(run), account) > |w.chat| + B.Posts(WorldPart(run))
    ensures B.Saved(After(cfg, w, run).world, account).None?
  {
    QueuedBackfillIsOnCourse(cfg, w, run, account);
    PartsAreRuns(cfg, w, run);
    B.OnCourseMovesOn(w, WorldPart(run), account);
    B.DoneInTime(w, WorldPart(run), account);
  }
}
