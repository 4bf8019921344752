/** Deduplication by job key over whole runs. */
module KeyDiscipline {
  import opened Common
  import opened JobModel
  import opened JobSteps
  import opened JobProtocol
  import opened LeaseSafety

  // ---- One job ever per range key, intervals between jobs: every run --------

  predicate RangeKey(key: Option<string>) {
    key.Some? && StartsWith(key.value, BACKFILL_PREFIX)
  }

  /** Two jobs of one key: never for a range key, and otherwise the later one (by id)
      was created at least its interval after the earlier. */
  predicate Spaced(earlier: Job, later: Job) {
    earlier.key == later.key && later.key.Some? && later.key.value != "" ==>
      && !RangeKey(later.key)
      && (later.minInterval > 0 ==> later.createdAt >= earlier.createdAt + later.minInterval)
  }

  predicate AllSpaced(s: State) {
    forall i, j :: i in s.rows && j in s.rows && i < j ==> Spaced(s.rows[i], s.rows[j])
  }

  lemma NewRowIsSpaced(cfg: Config, s: State, a: Action, i: int, j: int)
    requires RowsOk(s) && Enabled(cfg, s, a) && IsEnqueue(s, a)
    requires i in Next(cfg, s, a).rows && j in Next(cfg, s, a).rows && i != j && j !in s.rows
    ensures i !in s.rows ==> DistinctKeys(EnqueuedSpecs(s, a))
                             && Next(cfg, s, a).rows[i].key != Next(cfg, s, a).rows[j].key
    ensures i in s.rows ==> Spaced(s.rows[i], Next(cfg, s, a).rows[j]) && i < j
  {
    var specs := EnqueuedSpecs(s, a);
    EnqueueKeepsRows(cfg.settings, s.rows, s.nextId, EnqueuedParser(a), specs, a.now, a.flush);
    if i in s.rows {
      var spec := NewRowIsAdmitted(cfg, s, a, j);
      if s.rows[i].key == spec.key && spec.Keyed() {
        assert RangeKey(spec.key) ==> i in Matches(s.rows, EnqueuedParser(a), spec);
      }
    } else {
      EnqueueNewKeysDiffer(cfg.settings, s.rows, s.nextId, EnqueuedParser(a), specs, a.now, a.flush, i, j);
    }
  }

  lemma NextKeepsSpaced(cfg: Config, s: State, a: Action)
    requires RowsOk(s) && AllSpaced(s) && Enabled(cfg, s, a)
    ensures AllSpaced(Next(cfg, s, a))
  {
    var s' := Next(cfg, s, a);
    forall i, j | i in s'.rows && j in s'.rows && i < j
      ensures Spaced(s'.rows[i], s'.rows[j])
    {
      if i in s.rows { IdentityIsFixed(cfg, s, a, i); }
      if j in s.rows { IdentityIsFixed(cfg, s, a, j); }
      if j !in s.rows {
        NewRowIsSpaced(cfg, s, a, i, j);
      } else if i !in s.rows {
        NewRowIsSpaced(cfg, s, a, j, i);
      }
    }
  }

  /** In every run, manual retries and late finishes included: at most one job ever
      per range key, and jobs of a key with interval t are created at least t apart. */
  lemma {:induction false} EveryRunIsSpaced(cfg: Config, run: seq<Action>)
    requires IsRun(cfg, run)
    ensures AllSpaced(After(cfg, run))
  {
    if run != [] {
      EveryRunIsSpaced(cfg, run[..|run| - 1]);
      EveryRunKeepsInv(cfg, run[..|run| - 1]);
      NextKeepsSpaced(cfg, After(cfg, run[..|run| - 1]), run[|run| - 1]);
    }
  }

  // ---- One active job per key -----------------------------------------------

  predicate OneActive(s: State, key: string) {
    forall i, j :: i in s.rows && j in s.rows && i != j
                   && s.rows[i].key == Some(key) && s.rows[j].key == Some(key) ==>
      !(s.rows[i].Active() && s.rows[j].Active())
  }

  predicate NoManualRetry(run: seq<Action>) {
    forall i :: 0 <= i < |run| ==> !run[i].ManualRetry()
  }

  /** Only a late finish or a manual retry makes an inactive job active again. */
  lemma ActiveComesFromActive(cfg: Config, s: State, a: Action, j: int)
    requires Inv(cfg, s) && Enabled(cfg, s, a) && !a.ManualRetry() && HeldStep(s, a, j)
    requires j in s.rows && j in Next(cfg, s, a).rows && Next(cfg, s, a).rows[j].Active()
    ensures s.rows[j].Active()
  {
    if IsEnqueue(s, a) {
      EnqueueKeepsOldRows(cfg, s, a);
    }
  }

  lemma NextKeepsOneActive(cfg: Config, s: State, a: Action, key: string)
    requires Inv(cfg, s) && key != "" && OneActive(s, key) && Enabled(cfg, s, a) && !a.ManualRetry()
    requires forall j :: j in s.rows && s.rows[j].key == Some(key) ==> HeldStep(s, a, j)
    ensures OneActive(Next(cfg, s, a), key)
  {
    var s' := Next(cfg, s, a);
    forall i, j | i in s'.rows && j in s'.rows && i != j && s'.rows[i].key == Some(key) && s'.rows[j].key == Some(key)
      ensures !(s'.rows[i].Active() && s'.rows[j].Active())
    {
      if i in s.rows { IdentityIsFixed(cfg, s, a, i); }
      if j in s.rows { IdentityIsFixed(cfg, s, a, j); }
      if s'.rows[i].Active() && s'.rows[j].Active() {
        if i in s.rows { ActiveComesFromActive(cfg, s, a, i); }
        if j in s.rows { ActiveComesFromActive(cfg, s, a, j); }
        if i !in s.rows { NewKeyHasNoActive(cfg, s, a, j, i); }
        if j !in s.rows { NewKeyHasNoActive(cfg, s, a, i, j); }
      }
    }
  }

  /** Some job other than j holds the key. */
  predicate Taken(s: State, key: string, j: int) {
    exists i :: i in s.rows && i != j && s.rows[i].key == Some(key) && s.rows[i].Active()
  }

  /** Exactly when a finish, late or not, keeps the key to one active job: the row was
      still active, or the outcome ends it, or nobody has taken the key meanwhile. */
  lemma FinishKeepsOneActiveIff(cfg: Config, s: State, a: Action, key: string)
    requires Inv(cfg, s) && OneActive(s, key) && a.Finish? && Enabled(cfg, s, a)
    requires s.rows[s.inflight[a.worker].job].key == Some(key)
    ensures var claim := s.inflight[a.worker];
            var row := s.rows[claim.job];
            OneActive(Next(cfg, s, a), key) <==>
              row.Active() || a.outcome.Done? || (a.outcome.Errored? && row.attempt >= row.maxAttempts)
              || !Taken(s, key, claim.job)
  {
    var s', claim := DoFinish(cfg, s, a), s.inflight[a.worker];
    FinishedRowActive(cfg, s.rows[claim.job], claim, a.outcome, a.now, a.flush);
    assert s'.rows[claim.job].key == Some(key);
    OneActiveAround(s, s', key, claim.job);
  }

  lemma FinishedRowActive(cfg: Config, row: Job, claim: Claim, outcome: Outcome, now: int, flush: int)
    ensures var r := FinishedRow(cfg, row, claim, outcome, now, flush);
            && r.key == row.key
            && (r.Active() <==> outcome.Deferred? || (outcome.Errored? && row.attempt < row.maxAttempts))
  {}

  /** One row of a key changes, the rest stay: one active job means that this row is
      inactive or nobody else holds the key. */
  lemma OneActiveAround(s: State, s': State, key: string, j: int)
    requires OneActive(s, key) && s'.rows.Keys == s.rows.Keys && j in s.rows
    requires s.rows[j].key == Some(key) && s'.rows[j].key == Some(key)
    requires forall i :: i in s.rows && i != j ==> s'.rows[i] == s.rows[i]
    ensures OneActive(s', key) <==> !s'.rows[j].Active() || !Taken(s, key, j)
  {}

  /** Exactly when the manual retry of one job does. */
  lemma RetryKeepsOneActiveIff(cfg: Config, s: State, a: Action, key: string)
    requires Inv(cfg, s) && OneActive(s, key) && a.RetryOne? && Enabled(cfg, s, a)
    requires s.rows[a.job].key == Some(key)
    ensures OneActive(Next(cfg, s, a), key) <==> !Taken(s, key, a.job)
  {
    OneActiveAround(s, Next(cfg, s, a), key, a.job);
  }

  /** Exactly when the bulk retry does: it resets no job of the key beside another that it
      resets too or that is active. */
  lemma BulkRetryKeepsOneActiveIff(cfg: Config, s: State, a: Action, key: string)
    requires OneActive(s, key) && a.RetryFailed? && Enabled(cfg, s, a)
    ensures OneActive(Next(cfg, s, a), key) <==>
              forall i, j :: i in s.rows && j in a.jobs && i != j
                             && s.rows[i].key == Some(key) && s.rows[j].key == Some(key) ==>
                i !in a.jobs && !s.rows[i].Active()
  {
    var s' := Next(cfg, s, a);
    forall j | j in s.rows
      ensures s'.rows[j].key == s.rows[j].key && (s'.rows[j].Active() <==> j in a.jobs || s.rows[j].Active())
    {
      assert s'.rows[j] == if j in a.jobs then ResetRow(s.rows[j], a.now) else s.rows[j];
    }
    if i, j :| i in s.rows && j in a.jobs && i != j && s.rows[i].key == Some(key) && s.rows[j].key == Some(key)
               && (i in a.jobs || s.rows[i].Active()) {
      assert s'.rows[i].Active() && s'.rows[j].Active();
    }
  }

  /** A key that just got a new row had no active row, and gets no second new one. */
  lemma NewKeyHasNoActive(cfg: Config, s: State, a: Action, i: int, j: int)
    requires RowsOk(s) && Enabled(cfg, s, a) && IsEnqueue(s, a)
    requires i in Next(cfg, s, a).rows && j in Next(cfg, s, a).rows && i != j && j !in s.rows
    requires Next(cfg, s, a).rows[j].key.Some? && Next(cfg, s, a).rows[j].key.value != ""
    requires Next(cfg, s, a).rows[i].key == Next(cfg, s, a).rows[j].key
    ensures i in s.rows && !s.rows[i].Active()
  {
    NewRowIsSpaced(cfg, s, a, i, j);
    EnqueueKeepsOldRows(cfg, s, a);
    var spec := NewRowIsAdmitted(cfg, s, a, j);
    assert s.rows[i].Active() ==> i in Matches(s.rows, EnqueuedParser(a), spec);
  }

  /** At most one active job per key, in every run without manual retries whose
      finishes on the key's jobs are made by their holders. */
  lemma {:induction false} OneActiveJobPerKey(cfg: Config, run: seq<Action>, key: string)
    requires IsRun(cfg, run) && NoManualRetry(run) && key != ""
    requires forall j :: j in After(cfg, run).rows && After(cfg, run).rows[j].key == Some(key) ==> HeldRun(cfg, run, j)
    ensures OneActive(After(cfg, run), key)
  {
    if run != [] {
      var init, a := run[..|run| - 1], run[|run| - 1];
      var s := After(cfg, init);
      EveryRunKeepsInv(cfg, init);
      forall j | j in s.rows && s.rows[j].key == Some(key)
        ensures HeldRun(cfg, init, j) && HeldStep(s, a, j)
      {
        IdentityIsFixed(cfg, s, a, j);
        assert HeldRun(cfg, run, j);
      }
      OneActiveJobPerKey(cfg, init, key);
      NextKeepsOneActive(cfg, s, a, key);
    }
  }

  /** On the telegram queues in-time finishes are enough. */
  lemma OneActiveTelegramJobPerKey(cfg: Config, run: seq<Action>, key: string)
    requires IsRun(cfg, run) && NoManualRetry(run) && TimelyRun(cfg, run) && key != ""
    requires forall j :: j in After(cfg, run).rows && After(cfg, run).rows[j].key == Some(key) ==>
                           OnTelegramQueue(After(cfg, run).rows[j])
    ensures OneActive(After(cfg, run), key)
  {
    forall j | j in After(cfg, run).rows && After(cfg, run).rows[j].key == Some(key)
      ensures HeldRun(cfg, run, j)
    {
      TimelyRunIsHeldRun(cfg, run, j);
    }
    OneActiveJobPerKey(cfg, run, key);
  }

  lemma MatchIsUnique(s: State, parser: string, spec: Spec, i: int, j: int)
    requires AllSpaced(s) && spec.Keyed() && OneActive(s, spec.key.value)
    requires i in Matches(s.rows, parser, spec) && j in Matches(s.rows, parser, spec)
    ensures i == j
  {
    var lo, hi := Min(i, j), Max(i, j);
    assert lo < hi ==> Spaced(s.rows[lo], s.rows[hi]);
  }

  /** Then no existing-job query for a key finds two rows, so no enqueue of keyed
      specs is ever abandoned. */
  lemma {:induction false} EnqueueIsNeverAbandoned(cfg: Config, s: State, parser: string, specs: seq<Spec>,
                                                   now: int, flush: int)
    requires AllSpaced(s)
    requires forall i :: 0 <= i < |specs| ==> specs[i].Keyed() && OneActive(s, specs[i].key.value)
    ensures EnqueueAll(cfg.settings, s.rows, s.nextId, parser, specs, now, flush).Some?
  {
    if specs != [] {
      var spec := specs[|specs| - 1];
      EnqueueIsNeverAbandoned(cfg, s, parser, specs[..|specs| - 1], now, flush);
      var found := Matches(s.rows, parser, spec);
      if |found| > 1 {
        var i, j := TwoMembers(found);
        MatchIsUnique(s, parser, spec, i, j);
        assert false;
      }
    }
  }
}
