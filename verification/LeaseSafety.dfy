/** Exclusivity without fencing on the two telegram queues, from time bounds alone. */
module LeaseSafety {
  import opened Common
  import opened JobModel
  import opened JobSteps
  import opened JobProtocol

  /** Every claim on a telegram queue still holds its row or is past its deadline. */
  predicate ClaimsSafe(cfg: Config, s: State) {
    forall w :: w in s.inflight && s.inflight[w].job in s.rows && OnTelegramQueue(s.rows[s.inflight[w].job]) ==>
      Held(s, w) || s.clock > Deadline(cfg, s.inflight[w])
  }

  /** A held row is not stale before the deadline of its claim. */
  lemma HeldIsFresh(cfg: Config, s: State, w: string, now: int)
    requires Inv(cfg, s) && Held(s, w) && OnTelegramQueue(s.rows[s.inflight[w].job])
    requires Stale(cfg.settings, s.rows[s.inflight[w].job], now)
    ensures now > Deadline(cfg, s.inflight[w])
  {
    var claim := s.inflight[w];
    var row := s.rows[claim.job];
    assert Owned(cfg, s, claim.job);
    var waiting := row.(status := Pending, lockedBy := None, lockExpires := None, attempt := row.attempt - 1);
    assert row == Claimed(cfg.settings, waiting, w, claim.at, row.updatedAt);
    ReclaimOnlyAfterBudget(cfg.settings, waiting, w, claim.at, row.updatedAt, now);
  }

  /** A poll takes a row from its holder only when the row is stale. */
  lemma PollTakesOnlyStale(cfg: Config, s: State, a: Action, w: string)
    requires Inv(cfg, s) && a.Poll? && Enabled(cfg, s, a) && Held(s, w)
    ensures !Held(DoPoll(cfg, s, a), w) ==> Stale(cfg.settings, s.rows[s.inflight[w].job], a.now)
  {}

  lemma PollKeepsClaimsSafe(cfg: Config, s: State, a: Action)
    requires Inv(cfg, s) && ClaimsSafe(cfg, s) && a.Poll? && Enabled(cfg, s, a)
    ensures ClaimsSafe(cfg, DoPoll(cfg, s, a))
  {
    var s' := DoPoll(cfg, s, a);
    forall w | w in s'.inflight && s'.inflight[w].job in s'.rows && OnTelegramQueue(s'.rows[s'.inflight[w].job])
      ensures Held(s', w) || s'.clock > Deadline(cfg, s'.inflight[w])
    {
      if w != a.worker && Held(s, w) && Stale(cfg.settings, s.rows[s.inflight[w].job], a.now) {
        HeldIsFresh(cfg, s, w, a.now);
      }
    }
  }

  lemma FinishKeepsClaimsSafe(cfg: Config, s: State, a: Action)
    requires Inv(cfg, s) && ClaimsSafe(cfg, s) && a.Finish? && Enabled(cfg, s, a) && TimelyStep(cfg, s, a)
    ensures ClaimsSafe(cfg, DoFinish(cfg, s, a))
  {
    var s' := DoFinish(cfg, s, a);
    forall w | w in s'.inflight && s'.inflight[w].job in s'.rows && OnTelegramQueue(s'.rows[s'.inflight[w].job])
      ensures Held(s', w) || s'.clock > Deadline(cfg, s'.inflight[w])
    {
      assert w in s.inflight && w != a.worker;
      if s.inflight[w].job == s.inflight[a.worker].job {
        assert Held(s, a.worker);
      }
    }
  }

  lemma EnqueueKeepsClaimsSafe(cfg: Config, s: State, a: Action)
    requires Inv(cfg, s) && ClaimsSafe(cfg, s) && Enabled(cfg, s, a) && IsEnqueue(s, a)
    ensures ClaimsSafe(cfg, Next(cfg, s, a))
  {
    EnqueueKeepsOldRows(cfg, s, a);
  }

  lemma OtherKeepsClaimsSafe(cfg: Config, s: State, a: Action)
    requires Inv(cfg, s) && ClaimsSafe(cfg, s) && Enabled(cfg, s, a)
    requires !a.Poll? && !a.Finish? && !IsEnqueue(s, a)
    ensures ClaimsSafe(cfg, DoOther(s, a))
  {}

  lemma NextKeepsClaimsSafe(cfg: Config, s: State, a: Action)
    requires Inv(cfg, s) && ClaimsSafe(cfg, s) && Enabled(cfg, s, a) && TimelyStep(cfg, s, a)
    ensures ClaimsSafe(cfg, Next(cfg, s, a))
  {
    if IsEnqueue(s, a) {
      EnqueueKeepsClaimsSafe(cfg, s, a);
    } else if a.Poll? {
      PollKeepsClaimsSafe(cfg, s, a);
    } else if a.Finish? {
      FinishKeepsClaimsSafe(cfg, s, a);
    } else {
      OtherKeepsClaimsSafe(cfg, s, a);
    }
  }

  lemma {:induction false} TimelyRunKeepsClaimsSafe(cfg: Config, run: seq<Action>)
    requires IsRun(cfg, run) && TimelyRun(cfg, run)
    ensures ClaimsSafe(cfg, After(cfg, run))
  {
    if run != [] {
      TimelyRunKeepsClaimsSafe(cfg, run[..|run| - 1]);
      EveryRunKeepsInv(cfg, run[..|run| - 1]);
      NextKeepsClaimsSafe(cfg, After(cfg, run[..|run| - 1]), run[|run| - 1]);
    }
  }

  /** A recovery in a reachable state never takes back a telegram job that some
      worker still holds and may still finish in time. */
  lemma RecoveryWaitsForDeadline(cfg: Config, run: seq<Action>, a: Action, w: string)
    requires IsRun(cfg, run) && a.Poll? && Enabled(cfg, After(cfg, run), a)
    requires var s := After(cfg, run);
             Held(s, w) && OnTelegramQueue(s.rows[s.inflight[w].job])
             && !Held(Next(cfg, s, a), w)
    ensures a.now > After(cfg, run).inflight[w].at + Max(cfg.settings.fetchTimeout, 30) + 60
  {
    var s := After(cfg, run);
    EveryRunKeepsInv(cfg, run);
    PollTakesOnlyStale(cfg, s, a, w);
    HeldIsFresh(cfg, s, w, a.now);
  }

  /** If every finish so far was in time, the next in-time finish is made by the
      worker that still holds the job, on the attempt it claimed. */
  lemma TimelyFinishIsHeld(cfg: Config, run: seq<Action>, a: Action)
    requires IsRun(cfg, run) && TimelyRun(cfg, run)
    requires a.Finish? && Enabled(cfg, After(cfg, run), a) && TimelyStep(cfg, After(cfg, run), a)
    requires OnTelegramQueue(After(cfg, run).rows[After(cfg, run).inflight[a.worker].job])
    ensures var s := After(cfg, run);
            Held(s, a.worker) && s.rows[s.inflight[a.worker].job].attempt == s.inflight[a.worker].seen
  {
    var s := After(cfg, run);
    TimelyRunKeepsClaimsSafe(cfg, run);
    EveryRunKeepsInv(cfg, run);
    assert Owned(cfg, s, s.inflight[a.worker].job);
  }

  /** So in a timely run every finish on a telegram job is made by its holder. */
  lemma {:induction false} TimelyRunIsHeldRun(cfg: Config, run: seq<Action>, job: int)
    requires IsRun(cfg, run) && TimelyRun(cfg, run)
    requires job in After(cfg, run).rows && OnTelegramQueue(After(cfg, run).rows[job])
    ensures HeldRun(cfg, run, job)
  {
    if run != [] {
      var init, a := run[..|run| - 1], run[|run| - 1];
      var s := After(cfg, init);
      EveryRunKeepsInv(cfg, init);
      if job in s.rows {
        IdentityIsFixed(cfg, s, a, job);
        TimelyRunIsHeldRun(cfg, init, job);
        if a.Finish? && s.inflight[a.worker].job == job {
          TimelyFinishIsHeld(cfg, init, a);
        }
      } else {
        UnknownJobHasNoFinish(cfg, init, job);
      }
    }
  }

  lemma {:induction false} UnknownJobHasNoFinish(cfg: Config, run: seq<Action>, job: int)
    requires IsRun(cfg, run) && job !in After(cfg, run).rows
    ensures HeldRun(cfg, run, job)
  {
    if run != [] {
      var init, a := run[..|run| - 1], run[|run| - 1];
      EveryRunKeepsInv(cfg, init);
      if job in After(cfg, init).rows {
        IdentityIsFixed(cfg, After(cfg, init), a, job);
        assert false;
      }
      UnknownJobHasNoFinish(cfg, init, job);
    }
  }

  // ---- Stuck jobs -----------------------------------------------------------

  /** A recovery takes a scanned running job back exactly when its lease has run out, or
      it is a Telegram job whose row was written more than twice the fetch timeout, and
      more than ten minutes, ago; and what it takes back is due at once. */
  lemma StuckIsRecoveredIff(cfg: Config, s: State, a: Action, j: int)
    requires Inv(cfg, s) && a.Poll? && Enabled(cfg, s, a) && j in a.batch
    ensures var row, after := s.rows[j], Next(cfg, s, a).rows[j];
            && (after.Waiting() <==>
                  || (row.lockExpires.Some? && row.lockExpires.value < a.now)
                  || (row.parser == "telegram" && a.now - row.updatedAt > 2 * cfg.settings.fetchTimeout
                      && a.now - row.updatedAt > 600))
            && (after.Waiting() ==> forall t :: Claimable(after, t) <==> t >= a.now)
            && (!after.Waiting() ==> after == row)
  {
    ScannedRow(cfg, s, a, j);
  }

  lemma ScannedRow(cfg: Config, s: State, a: Action, j: int)
    requires a.Poll? && Enabled(cfg, s, a) && j in a.batch
    ensures s.rows[j].status.Running? && j in Next(cfg, s, a).rows
    ensures Next(cfg, s, a).rows[j] == if Stale(cfg.settings, s.rows[j], a.now)
                                       then Recovered(s.rows[j], a.now, a.flush) else s.rows[j]
  {
    assert !Claimable(s.rows[j], a.now);
  }

  lemma OwnedLease(cfg: Config, s: State, j: int)
    requires Inv(cfg, s) && j in s.rows && s.rows[j].status.Running?
    ensures s.rows[j].lockedBy.Some? && s.rows[j].lockedBy.value in s.inflight
    ensures s.rows[j].lockExpires
            == Some(s.inflight[s.rows[j].lockedBy.value].at + 60 * LockMinutes(cfg.settings, s.rows[j]))
  {
    assert Owned(cfg, s, j);
  }

  /** So a job whose worker is gone comes back: once its lease is over, whatever the queue,
      every recovery that scans it frees it. */
  lemma ExpiredClaimIsRecovered(cfg: Config, run: seq<Action>, a: Action, j: int)
    requires IsRun(cfg, run) && a.Poll? && Enabled(cfg, After(cfg, run), a) && j in a.batch
    requires var s := After(cfg, run);
             && s.rows[j].lockedBy.Some? && s.rows[j].lockedBy.value in s.inflight
             && a.now > s.inflight[s.rows[j].lockedBy.value].at + 60 * LockMinutes(cfg.settings, s.rows[j])
    ensures Next(cfg, After(cfg, run), a).rows[j].status.Retry? && Next(cfg, After(cfg, run), a).rows[j].lockedBy.None?
  {
    EveryRunKeepsInv(cfg, run);
    ScannedRow(cfg, After(cfg, run), a, j);
    OwnedLease(cfg, After(cfg, run), j);
  }

  // ---- In plain numbers -----------------------------------------------------

  /** A finish on one of the two Telegram queues is in time when it commits at most a minute
      after the fetch budget of its claim, thirty seconds at least. */
  lemma TimelyIff(cfg: Config, s: State, a: Action)
    requires Inv(cfg, s) && a.Finish? && Enabled(cfg, s, a)
    ensures var claim := s.inflight[a.worker];
            var queue := s.rows[claim.job].queue;
            && (queue == "telegram_live" || queue == "telegram_backfill" ==>
                  (TimelyStep(cfg, s, a) <==> a.flush - claim.at <= Max(cfg.settings.fetchTimeout, 30) + 60))
            && (queue != "" && queue != "telegram_live" && queue != "telegram_backfill" ==> TimelyStep(cfg, s, a))
  {}
}
