/** One worker on the job table: its poll and its finish are composed of the table's
    loops, and each is exactly one step of the protocol. */
module WorkerLoop {
  import opened Common
  import opened JobModel
  import opened JobSteps
  import opened JobProtocol
  import JobTable

  class Worker {
    const name: string
    const table: JobTable.Table
    var targets: map<int, Target>
    var claim: Option<Claim>

    constructor (name: string, table: JobTable.Table, targets: map<int, Target>)
      ensures this.name == name && this.table == table && this.targets == targets && claim == None
    {
      this.name, this.table, this.targets, claim := name, table, targets, None;
    }

    /** The worker sees the table and the targets of this state, and its own claim. */
    ghost predicate Sees(s: State)
      reads this, table
    {
      && table.rows == s.rows && table.nextId == s.nextId && targets == s.targets
      && claim == if name in s.inflight then Some(s.inflight[name]) else None
    }

    /** Recovery and claim in one transaction: the claim's queries still read the table the
        transaction found, because what recovery changed has not been flushed. */
    method PollOnce(cfg: Config, batch: seq<int>, candidates: seq<int>, lockable: set<int>, now: int, flush: int,
                    ghost s: State)
      requires Sees(s) && Enabled(cfg, s, Poll(name, batch, candidates, lockable, now, flush))
      modifies this`claim, table`rows
      ensures Sees(Next(cfg, s, Poll(name, batch, candidates, lockable, now, flush)))
    {
      var snapshot := table.rows;
      var _ := table.RecoverStale(cfg.settings, batch, now, flush);
      var picked := table.LockNext(cfg.settings, cfg.accounts, lockable, name, snapshot, candidates, now, flush);
      if picked.Some? {
        claim := Some(Claim(picked.value, now, table.rows[picked.value].attempt));
        ClaimedIsNotRecovered(cfg, s, batch, candidates, lockable, now, flush);
      }
    }

    /** The step the job body wrote, then the job's outcome, in one transaction. A failed
        body is rolled back first, and its last failure ends an onboarding. */
    method FinishOnce(cfg: Config, outcome: Outcome, now: int, flush: int, ghost s: State)
      requires Sees(s) && Enabled(cfg, s, Finish(name, outcome, now, flush)) && claim.Some?
      modifies this`claim, this`targets, table`rows
      ensures Sees(Next(cfg, s, Finish(name, outcome, now, flush)))
    {
      var id := claim.value.job;
      match outcome {
        case Done(step) =>
          targets := SetStepIf(targets, table.rows[id].target, step);
          table.Complete(id, flush);
        case Deferred(seconds, step) =>
          targets := SetStepIf(targets, table.rows[id].target, step);
          table.Defer(id, claim.value.seen, seconds, now, flush);
        case Errored =>
          table.Fail(cfg.settings, id, now, flush);
          var row := table.rows[id];
          if row.status.Failed? && row.key.Some? && StartsWith(row.key.value, ONBOARD_PREFIX) {
            targets := SetStep(targets, row.target, StepFailed);
          }
      }
      claim := None;
    }
  }

  /** What was picked was waiting, so recovery did not touch it. */
  lemma ClaimedIsNotRecovered(cfg: Config, s: State, batch: seq<int>, candidates: seq<int>, lockable: set<int>,
                              now: int, flush: int)
    requires IsRunningScan(s.rows, batch) && IsCandidateScan(s.rows, candidates, now)
    requires Pick(cfg.settings, s.rows, cfg.accounts, lockable, candidates, now).Some?
    ensures var j := Pick(cfg.settings, s.rows, cfg.accounts, lockable, candidates, now).value;
            && j in s.rows && RecoverRows(cfg.settings, s.rows, batch, now, flush)[j] == s.rows[j]
  {}
}
