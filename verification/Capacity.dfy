/** Per-account capacity over every run of the engine, late finishes included. */
module Capacity {
  import opened Common
  import opened JobModel
  import opened JobSteps
  import opened JobProtocol

  /** Live-leased running jobs of an account whose own queue limit is at most `level`. */
  function Tier(cfg: Config, s: State, account: int, level: int): set<int> {
    set j | j in s.rows && s.rows[j].account == Some(account) && LiveLease(s.rows[j], s.clock)
            && LimitOf(cfg.settings, cfg.accounts, s.rows[j]) <= level
  }

  ghost predicate Staircase(cfg: Config, s: State) {
    forall account: int, level: int :: level >= 1 ==> |Tier(cfg, s, account, level)| <= level
  }

  /** Nothing entered the tiers: every live row after was live before, on the same
      account and queue. */
  predicate NoNewLive(s: State, s': State) {
    forall j :: j in s'.rows && LiveLease(s'.rows[j], s'.clock) ==>
      && j in s.rows && LiveLease(s.rows[j], s.clock)
      && s.rows[j].account == s'.rows[j].account && EffectiveQueue(s.rows[j]) == EffectiveQueue(s'.rows[j])
  }

  /** A job's limit is a matter of its queue and its account. */
  lemma SameLimit(cfg: Config, x: Job, y: Job)
    requires x.account == y.account && EffectiveQueue(x) == EffectiveQueue(y)
    ensures LimitOf(cfg.settings, cfg.accounts, x) == LimitOf(cfg.settings, cfg.accounts, y)
  {}

  lemma NoNewLiveShrinksTier(cfg: Config, s: State, s': State, account: int, level: int)
    requires NoNewLive(s, s')
    ensures Tier(cfg, s', account, level) <= Tier(cfg, s, account, level)
  {
    forall j | j in Tier(cfg, s', account, level)
      ensures j in Tier(cfg, s, account, level)
    {
      SameLimit(cfg, s.rows[j], s'.rows[j]);
    }
  }

  lemma NoNewLiveKeepsStaircase(cfg: Config, s: State, s': State)
    requires Staircase(cfg, s) && NoNewLive(s, s')
    ensures Staircase(cfg, s')
  {
    forall account: int, level: int | level >= 1
      ensures |Tier(cfg, s', account, level)| <= level
    {
      NoNewLiveShrinksTier(cfg, s, s', account, level);
      SubsetCard(Tier(cfg, s', account, level), Tier(cfg, s, account, level));
    }
  }

  /** A claim passes only below the job's own limit, so it fills no step of the
      staircase past its height. */
  lemma ClaimKeepsTier(cfg: Config, s: State, a: Action, j: int, account: int, level: int)
    requires Inv(cfg, s) && Staircase(cfg, s) && a.Poll? && Enabled(cfg, s, a)
    requires Pick(cfg.settings, s.rows, cfg.accounts, a.lockable, a.candidates, a.now) == Some(j)
    requires level >= 1
    ensures |Tier(cfg, DoPoll(cfg, s, a), account, level)| <= level
  {
    var s' := DoPoll(cfg, s, a);
    var after, before := Tier(cfg, s', account, level), Tier(cfg, s, account, level);
    SameLimit(cfg, s.rows[j], s'.rows[j]);
    forall k | k in after && k != j
      ensures k in before && k in LiveJobs(s.rows, account, a.now)
    {
      SameLimit(cfg, s.rows[k], s'.rows[k]);
    }
    if j in after {
      var others := LiveJobs(s.rows, account, a.now) - {j};
      assert after <= others + {j};
      SubsetCard(after, others + {j});
    } else {
      SubsetCard(after, before);
    }
  }

  lemma PollKeepsStaircase(cfg: Config, s: State, a: Action)
    requires Inv(cfg, s) && Staircase(cfg, s) && a.Poll? && Enabled(cfg, s, a)
    ensures Staircase(cfg, DoPoll(cfg, s, a))
  {
    var picked := Pick(cfg.settings, s.rows, cfg.accounts, a.lockable, a.candidates, a.now);
    if picked.None? {
      NoNewLiveKeepsStaircase(cfg, s, DoPoll(cfg, s, a));
    } else {
      forall account: int, level: int | level >= 1
        ensures |Tier(cfg, DoPoll(cfg, s, a), account, level)| <= level
      {
        ClaimKeepsTier(cfg, s, a, picked.value, account, level);
      }
    }
  }

  lemma NextKeepsStaircase(cfg: Config, s: State, a: Action)
    requires Inv(cfg, s) && Staircase(cfg, s) && Enabled(cfg, s, a)
    ensures Staircase(cfg, Next(cfg, s, a))
  {
    if a.Poll? {
      PollKeepsStaircase(cfg, s, a);
    } else {
      if IsEnqueue(s, a) {
        EnqueueAddsNoLive(cfg, s, a);
      }
      NoNewLiveKeepsStaircase(cfg, s, Next(cfg, s, a));
    }
  }

  lemma EnqueueAddsNoLive(cfg: Config, s: State, a: Action)
    requires Inv(cfg, s) && Enabled(cfg, s, a) && IsEnqueue(s, a)
    ensures NoNewLive(s, Next(cfg, s, a))
  {
    EnqueueKeepsOldRows(cfg, s, a);
    forall j | j in Next(cfg, s, a).rows && j !in s.rows
      ensures Next(cfg, s, a).rows[j].status.Pending?
    {
      var spec := NewRowIsAdmitted(cfg, s, a, j);
    }
  }

  /** In every reachable state, for every account and every level, at most `level`
      live jobs have a limit of at most `level`. */
  lemma {:induction false} StaircaseCapacity(cfg: Config, run: seq<Action>)
    requires IsRun(cfg, run)
    ensures Staircase(cfg, After(cfg, run))
  {
    if run != [] {
      var before := After(cfg, run[..|run| - 1]);
      StaircaseCapacity(cfg, run[..|run| - 1]);
      EveryRunKeepsInv(cfg, run[..|run| - 1]);
      NextKeepsStaircase(cfg, before, run[|run| - 1]);
    } else {
      forall account: int, level: int | level >= 1
        ensures |Tier(cfg, Init(), account, level)| <= level
      {
        assert Tier(cfg, Init(), account, level) == {};
      }
    }
  }

  /** So no queue of an account ever runs more live jobs than its own limit. */
  lemma QueueStaysWithinItsLimit(cfg: Config, run: seq<Action>, account: int, j: int)
    requires IsRun(cfg, run) && j in After(cfg, run).rows
    requires After(cfg, run).rows[j].account == Some(account)
    ensures var s := After(cfg, run);
            |set k | k in s.rows && s.rows[k].account == Some(account) && LiveLease(s.rows[k], s.clock)
                     && EffectiveQueue(s.rows[k]) == EffectiveQueue(s.rows[j])|
            <= LimitOf(cfg.settings, cfg.accounts, s.rows[j])
  {
    var s := After(cfg, run);
    var limit := LimitOf(cfg.settings, cfg.accounts, s.rows[j]);
    StaircaseCapacity(cfg, run);
    var queue := set k | k in s.rows && s.rows[k].account == Some(account) && LiveLease(s.rows[k], s.clock)
                         && EffectiveQueue(s.rows[k]) == EffectiveQueue(s.rows[j]);
    forall k | k in queue
      ensures k in Tier(cfg, s, account, limit)
    {
      SameLimit(cfg, s.rows[k], s.rows[j]);
    }
    SubsetCard(queue, Tier(cfg, s, account, limit));
  }

  // ---- In numbers -----------------------------------------------------------

  /** The live jobs an account runs on one queue. */
  function RunningOn(rows: Rows, account: int, queue: string, now: int): set<int> {
    set j | j in rows && rows[j].account == Some(account) && rows[j].queue == queue && rows[j].status.Running?
            && (rows[j].lockExpires.None? || rows[j].lockExpires.value >= now)
  }

  lemma RunningOnStaysWithin(cfg: Config, run: seq<Action>, account: int, queue: string, limit: int)
    requires IsRun(cfg, run) && queue != "" && limit >= 0
    requires forall j :: j in After(cfg, run).rows && After(cfg, run).rows[j].account == Some(account)
                         && After(cfg, run).rows[j].queue == queue ==>
               LimitOf(cfg.settings, cfg.accounts, After(cfg, run).rows[j]) <= limit
    ensures |RunningOn(After(cfg, run).rows, account, queue, After(cfg, run).clock)| <= limit
  {
    var s := After(cfg, run);
    var here := RunningOn(s.rows, account, queue, s.clock);
    if here != {} {
      var j := Member(here);
      QueueStaysWithinItsLimit(cfg, run, account, j);
      SubsetCard(here, set k | k in s.rows && s.rows[k].account == Some(account) && LiveLease(s.rows[k], s.clock)
                               && EffectiveQueue(s.rows[k]) == EffectiveQueue(s.rows[j]));
    }
  }

  lemma QueuesDiffer()
    ensures TELEGRAM_LIVE != TELEGRAM_BACKFILL && DARKNET != WEB
    ensures DARKNET != TELEGRAM_LIVE && DARKNET != TELEGRAM_BACKFILL && WEB != TELEGRAM_LIVE && WEB != TELEGRAM_BACKFILL
  {
    assert |TELEGRAM_LIVE| == 13 && |TELEGRAM_BACKFILL| == 17 && |DARKNET| == 7 && |WEB| == 3;
  }

  /** In every run: a Telegram account runs on the live queue at most its own number of
      parallel jobs, or the setting's if it has none, and on the backfill queue likewise;
      never less than one. */
  lemma TelegramLimits(cfg: Config, run: seq<Action>, account: int)
    requires IsRun(cfg, run) && account in cfg.accounts && cfg.accounts[account].parser == "telegram"
    ensures var s, a := After(cfg, run), cfg.accounts[account];
            && |RunningOn(s.rows, account, "telegram_live", s.clock)|
               <= Max(if a.parallel.Some? then a.parallel.value else cfg.settings.telegramParallel, 1)
            && |RunningOn(s.rows, account, "telegram_backfill", s.clock)|
               <= Max(if a.backfillParallel.Some? then a.backfillParallel.value
                      else cfg.settings.telegramBackfillParallel, 1)
  {
    QueuesDiffer();
    var a := cfg.accounts[account];
    RunningOnStaysWithin(cfg, run, account, "telegram_live",
                         Max(if a.parallel.Some? then a.parallel.value else cfg.settings.telegramParallel, 1));
    RunningOnStaysWithin(cfg, run, account, "telegram_backfill",
                         Max(if a.backfillParallel.Some? then a.backfillParallel.value
                             else cfg.settings.telegramBackfillParallel, 1));
  }

  /** And any account at most the setting's number on the darknet and web queues, and one
      on a queue that has no setting. */
  lemma OtherLimits(cfg: Config, run: seq<Action>, account: int, queue: string)
    requires IsRun(cfg, run)
    ensures var s := After(cfg, run);
            && |RunningOn(s.rows, account, "darknet", s.clock)| <= Max(cfg.settings.darknetParallel, 1)
            && |RunningOn(s.rows, account, "web", s.clock)| <= Max(cfg.settings.webParallel, 1)
            && (queue !in {"", "telegram_live", "telegram_backfill", "darknet", "web"} ==>
                  |RunningOn(s.rows, account, queue, s.clock)| <= 1)
  {
    QueuesDiffer();
    RunningOnStaysWithin(cfg, run, account, "darknet", Max(cfg.settings.darknetParallel, 1));
    RunningOnStaysWithin(cfg, run, account, "web", Max(cfg.settings.webParallel, 1));
    if queue !in {"", "telegram_live", "telegram_backfill", "darknet", "web"} {
      RunningOnStaysWithin(cfg, run, account, queue, 1);
    }
  }

  /** The other live jobs of an account, whatever their queue. */
  function OthersRunning(rows: Rows, account: int, j: int, now: int): set<int> {
    set k | k in rows && k != j && rows[k].account == Some(account) && rows[k].status.Running?
            && (rows[k].lockExpires.None? || rows[k].lockExpires.value >= now)
  }

  lemma RoomIff(cfg: Config, rows: Rows, lockable: set<int>, account: int, j: int, now: int)
    requires j in rows && rows[j].account == Some(account) && account in cfg.accounts && account in lockable
    ensures HasRoom(cfg.settings, rows, cfg.accounts, lockable, j, now)
            <==> |OthersRunning(rows, account, j, now)| < LimitOf(cfg.settings, cfg.accounts, rows[j])
  {
    assert OthersRunning(rows, account, j, now) == LiveJobs(rows, account, now) - {j};
  }

  /** The worker now runs the job. */
  predicate Runs(s: State, worker: string, j: int) {
    j in s.rows && s.rows[j].status.Running? && s.rows[j].lockedBy == Some(worker)
  }

  lemma FirstRunsIffRoom(cfg: Config, s: State, a: Action)
    requires Inv(cfg, s) && a.Poll? && Enabled(cfg, s, a) && a.candidates != []
    ensures Runs(Next(cfg, s, a), a.worker, a.candidates[0])
            <==> HasRoom(cfg.settings, s.rows, cfg.accounts, a.lockable, a.candidates[0], a.now)
  {
    var j := a.candidates[0];
    assert Claimable(s.rows[j], a.now);
    assert !Stale(cfg.settings, s.rows[j], a.now);
  }

  /** The first candidate of a scan is claimed if it has no account; not if its account is
      gone or locked by another session. */
  lemma FirstWithoutAccount(cfg: Config, s: State, a: Action)
    requires Inv(cfg, s) && a.Poll? && Enabled(cfg, s, a) && a.candidates != []
    ensures var j := a.candidates[0];
            && (s.rows[j].account.None? ==> Runs(Next(cfg, s, a), a.worker, j))
            && (s.rows[j].account.Some? && (s.rows[j].account.value !in cfg.accounts
                                            || s.rows[j].account.value !in a.lockable) ==>
                  !Runs(Next(cfg, s, a), a.worker, j))
  {
    FirstRunsIffRoom(cfg, s, a);
  }

  /** Otherwise it is claimed exactly when fewer other jobs run on its account, on whatever
      queues, than its own queue allows there. */
  lemma FirstIsClaimedIff(cfg: Config, s: State, a: Action, account: int)
    requires Inv(cfg, s) && a.Poll? && Enabled(cfg, s, a) && a.candidates != []
    requires s.rows[a.candidates[0]].account == Some(account) && account in cfg.accounts && account in a.lockable
    ensures var j := a.candidates[0];
            var running, claimed := |OthersRunning(s.rows, account, j, a.now)|, Runs(Next(cfg, s, a), a.worker, j);
            var acc, queue := cfg.accounts[account], s.rows[j].queue;
            && (queue == "telegram_live" && acc.parser == "telegram" ==>
                  (claimed <==> running < Max(if acc.parallel.Some? then acc.parallel.value
                                              else cfg.settings.telegramParallel, 1)))
            && (queue == "telegram_backfill" && acc.parser == "telegram" ==>
                  (claimed <==> running < Max(if acc.backfillParallel.Some? then acc.backfillParallel.value
                                              else cfg.settings.telegramBackfillParallel, 1)))
            && (queue == "telegram_live" && acc.parser != "telegram" ==>
                  (claimed <==> running < Max(cfg.settings.darknetParallel, 1)))
            && (queue == "telegram_backfill" && acc.parser != "telegram" ==> (claimed <==> running < 1))
            && (queue == "darknet" ==> (claimed <==> running < Max(cfg.settings.darknetParallel, 1)))
            && (queue == "web" ==> (claimed <==> running < Max(cfg.settings.webParallel, 1)))
            && (queue !in {"", "telegram_live", "telegram_backfill", "darknet", "web"} ==> (claimed <==> running < 1))
  {
    QueuesDiffer();
    FirstRunsIffRoom(cfg, s, a);
    RoomIff(cfg, s.rows, a.lockable, account, a.candidates[0], a.now);
  }
}
