/** The job table as the worker, the scheduler and the user handlers update it.
    Query results and the clock are parameters; each method is one of the loops
    of the program and ends in the table its specification function gives. */
module JobTable {
  import opened Common
  import opened JobModel
  import opened JobSteps

  class Table {
    var rows: Rows
    var nextId: int

    constructor ()
      ensures rows == map[] && nextId == 1
    {
      rows, nextId := map[], 1;
    }

    /** Sends stale running rows back to retry. */
    method RecoverStale(cfg: Settings, batch: seq<int>, now: int, flush: int) returns (recovered: nat)
      requires IsRunningScan(rows, batch)
      modifies this`rows
      ensures rows == RecoverRows(cfg, old(rows), batch, now, flush)
      ensures recovered == |RecoverySet(cfg, old(rows), batch, now)|
    {
      recovered := 0;
      for i := 0 to |batch|
        invariant rows.Keys == old(rows).Keys
        invariant forall k :: k in rows && k in batch[..i] ==>
                    rows[k] == if Stale(cfg, old(rows)[k], now) then Recovered(old(rows)[k], now, flush)
                               else old(rows)[k]
        invariant forall k :: k in rows && k !in batch[..i] ==> rows[k] == old(rows)[k]
        invariant recovered == |RecoverySet(cfg, old(rows), batch[..i], now)|
      {
        var j := batch[i];
        RecoverOneMore(cfg, old(rows), batch, i, now);
        if Stale(cfg, rows[j], now) {
          rows := rows[j := Recovered(rows[j], now, flush)];
          recovered := recovered + 1;
        }
      }
      assert batch[..|batch|] == batch;
    }

    /** Claims the first candidate with room. The queries of the claim read
        `snapshot`, the table as the transaction found it: what recovery changed
        earlier in the same transaction has not been flushed yet. */
    method LockNext(cfg: Settings, accounts: map<int, Account>, lockable: set<int>, worker: string,
                    snapshot: Rows, candidates: seq<int>, now: int, flush: int) returns (claimed: Option<int>)
      requires IsCandidateScan(snapshot, candidates, now) && snapshot.Keys <= rows.Keys
      modifies this`rows
      ensures claimed == Pick(cfg, snapshot, accounts, lockable, candidates, now)
      ensures rows == if claimed.None? then old(rows)
                      else old(rows)[claimed.value := Claimed(cfg, old(rows)[claimed.value], worker, now, flush)]
    {
      var i := 0;
      assert candidates[0..] == candidates;
      while i < |candidates|
        invariant 0 <= i <= |candidates| && rows == old(rows)
        invariant Pick(cfg, snapshot, accounts, lockable, candidates, now)
               == Pick(cfg, snapshot, accounts, lockable, candidates[i..], now)
      {
        var j := candidates[i];
        if HasRoom(cfg, snapshot, accounts, lockable, j, now) {
          rows := rows[j := Claimed(cfg, rows[j], worker, now, flush)];
          return Some(j);
        }
        assert candidates[i..][1..] == candidates[i + 1..];
        i := i + 1;
      }
      return None;
    }

    /** Claims one named job if it is still claimable and has room: the same
        decision as LockNext over the one-element or empty scan. */
    method LockById(cfg: Settings, accounts: map<int, Account>, lockable: set<int>, worker: string,
                    snapshot: Rows, id: int, now: int, flush: int) returns (claimed: Option<int>)
      requires snapshot.Keys <= rows.Keys
      modifies this`rows
      ensures var scan := if id in snapshot && Claimable(snapshot[id], now) then [id] else [];
              && claimed == Pick(cfg, snapshot, accounts, lockable, scan, now)
              && rows == if claimed.None? then old(rows)
                         else old(rows)[claimed.value := Claimed(cfg, old(rows)[claimed.value], worker, now, flush)]
    {
      if id !in snapshot || !Claimable(snapshot[id], now) {
        return None;
      }
      var job := snapshot[id];
      if job.account.Some? {
        var account := job.account.value;
        if account !in accounts || account !in lockable {
          return None;
        }
        var running := |LiveJobs(snapshot, account, now) - {id}|;
        if running >= LimitOf(cfg, accounts, job) {
          return None;
        }
      }
      rows := rows[id := Claimed(cfg, rows[id], worker, now, flush)];
      return Some(id);
    }

    method Complete(id: int, flush: int)
      requires id in rows
      modifies this`rows
      ensures rows == old(rows)[id := CompletedRow(old(rows)[id], flush)]
    {
      rows := rows[id := rows[id].(status := Succeeded, lockedBy := None, lockExpires := None, updatedAt := flush)];
    }

    method Fail(cfg: Settings, id: int, now: int, flush: int)
      requires id in rows
      modifies this`rows
      ensures rows == old(rows)[id := FailedRow(cfg, old(rows)[id], now, flush)]
    {
      var job := rows[id];
      if job.attempt >= job.maxAttempts {
        job := job.(status := Failed);
      } else {
        job := job.(status := Retry, runAfter := now + Min(MaxBackoff(cfg, job), Pow2(Max(job.attempt, 0))));
      }
      rows := rows[id := job.(lockedBy := None, lockExpires := None, updatedAt := flush)];
    }

    method Defer(id: int, seenAttempt: int, seconds: int, now: int, flush: int)
      requires id in rows
      modifies this`rows
      ensures rows == old(rows)[id := DeferredRow(old(rows)[id], seenAttempt, seconds, now, flush)]
    {
      rows := rows[id := rows[id].(status := Retry, runAfter := now + Max(seconds, 1),
                                   attempt := Max(seenAttempt - 1, 0),
                                   lockedBy := None, lockExpires := None, updatedAt := flush)];
    }

    /** Adds the specs that nothing blocks. ok is false when a query that allows one
        row found several; the caller then rolls the transaction back. */
    method EnqueueSpecs(cfg: Settings, parser: string, specs: seq<Spec>, now: int, flush: int)
        returns (ok: bool, created: nat, skipped: nat)
      modifies this
      ensures ok == EnqueueAll(cfg, old(rows), old(nextId), parser, specs, now, flush).Some?
      ensures ok ==> EnqueueAll(cfg, old(rows), old(nextId), parser, specs, now, flush).value
                     == Batch(rows, nextId, created, skipped)
    {
      var snapshot := rows;
      created, skipped := 0, 0;
      var i := 0;
      assert specs[..0] == [];
      while i < |specs|
        invariant 0 <= i <= |specs| && snapshot == old(rows)
        invariant EnqueueAll(cfg, snapshot, old(nextId), parser, specs[..i], now, flush)
               == Some(Batch(rows, nextId, created, skipped))
      {
        var spec := specs[i];
        assert specs[..i + 1][..i] == specs[..i];
        if TooSoon(snapshot, spec, now) {
          skipped := skipped + 1;
        } else {
          var existing := Matches(snapshot, parser, spec);
          if |existing| > 1 {
            EnqueueStaysAbandoned(cfg, snapshot, old(nextId), parser, specs, i + 1, now, flush);
            return false, created, skipped;
          }
          if |existing| == 1 {
            skipped := skipped + 1;
          } else {
            rows := rows[nextId := NewRow(cfg, parser, spec, now, flush)];
            nextId := nextId + 1;
            created := created + 1;
          }
        }
        i := i + 1;
      }
      assert specs[..|specs|] == specs;
      return true, created, skipped;
    }

    /** The user's stop: waiting jobs of the target, as the query lists them, end as failed. */
    method StopTarget(parser: string, target: int, waiting: seq<int>, now: int)
      requires forall j :: j in waiting <==> j in rows && Stoppable(rows[j], parser, target)
      modifies this`rows
      ensures rows == StopRows(old(rows), parser, target, now)
    {
      for i := 0 to |waiting|
        invariant rows.Keys == old(rows).Keys
        invariant forall k :: k in rows && k in waiting[..i] ==> rows[k] == StoppedRow(old(rows)[k], now)
        invariant forall k :: k in rows && k !in waiting[..i] ==> rows[k] == old(rows)[k]
      {
        var j := waiting[i];
        assert j in waiting && waiting[..i + 1] == waiting[..i] + [j];
        rows := rows[j := StoppedRow(rows[j], now)];
      }
      assert waiting[..|waiting|] == waiting;
      assert forall k :: k in rows ==> (k in waiting <==> Stoppable(old(rows)[k], parser, target));
      ghost var goal := StopRows(old(rows), parser, target, now);
      assert rows.Keys == goal.Keys;
      assert forall k :: k in rows ==> rows[k] == goal[k];
    }

    /** The user's bulk retry of the failed jobs the query lists. */
    method RetryFailed(failedJobs: seq<int>, now: int) returns (updated: nat)
      requires forall j :: j in failedJobs ==> j in rows && rows[j].status.Failed?
      modifies this`rows
      ensures rows == ResetRows(old(rows), (set j | j in failedJobs), now) && updated == |failedJobs|
    {
      for i := 0 to |failedJobs|
        invariant rows.Keys == old(rows).Keys
        invariant forall k :: k in rows && k in failedJobs[..i] ==> rows[k] == ResetRow(old(rows)[k], now)
        invariant forall k :: k in rows && k !in failedJobs[..i] ==> rows[k] == old(rows)[k]
      {
        var j := failedJobs[i];
        assert j in failedJobs && failedJobs[..i + 1] == failedJobs[..i] + [j];
        rows := rows[j := ResetRow(rows[j], now)];
      }
      assert failedJobs[..|failedJobs|] == failedJobs;
      ghost var chosen := set j | j in failedJobs;
      assert forall k :: k in rows ==> (k in failedJobs <==> k in chosen);
      ghost var goal := ResetRows(old(rows), chosen, now);
      assert rows.Keys == goal.Keys;
      assert forall k :: k in rows ==> rows[k] == goal[k];
      updated := |failedJobs|;
    }

    /** The user's retry of one job; refused while it runs. */
    method RetrySingle(id: int, now: int) returns (accepted: bool)
      requires id in rows
      modifies this`rows
      ensures accepted == !old(rows)[id].status.Running?
      ensures rows == if accepted then ResetRows(old(rows), {id}, now) else old(rows)
    {
      if rows[id].status.Running? {
        return false;
      }
      rows := rows[id := ResetRow(rows[id], now)];
      return true;
    }
  }

  /** One more scanned row joins the recovered ones exactly if it is stale. */
  lemma RecoverOneMore(cfg: Settings, rows: Rows, batch: seq<int>, i: nat, now: int)
    requires IsRunningScan(rows, batch) && i < |batch|
    ensures batch[..i + 1] == batch[..i] + [batch[i]] && batch[i] !in batch[..i]
    ensures |RecoverySet(cfg, rows, batch[..i + 1], now)|
            == |RecoverySet(cfg, rows, batch[..i], now)| + (if Stale(cfg, rows[batch[i]], now) then 1 else 0)
  {
    var j := batch[i];
    assert batch[..i + 1] == batch[..i] + [j];
    assert j !in batch[..i];
    var s := RecoverySet(cfg, rows, batch[..i], now);
    assert RecoverySet(cfg, rows, batch[..i + 1], now) == if Stale(cfg, rows[j], now) then s + {j} else s;
  }

  lemma {:induction false} EnqueueStaysAbandoned(
      cfg: Settings, snapshot: Rows, nextId: int, parser: string, specs: seq<Spec>, i: nat, now: int, flush: int)
    requires i <= |specs|
    requires EnqueueAll(cfg, snapshot, nextId, parser, specs[..i], now, flush).None?
    ensures EnqueueAll(cfg, snapshot, nextId, parser, specs, now, flush).None?
    decreases |specs| - i
  {
    if i == |specs| {
      assert specs[..i] == specs;
    } else {
      assert specs[..i + 1][..i] == specs[..i];
      EnqueueStaysAbandoned(cfg, snapshot, nextId, parser, specs, i + 1, now, flush);
    }
  }
}
