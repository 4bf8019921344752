/** What each transaction of the worker and the scheduler does to the job table,
    as functions of the table. The table maps job ids to rows. */
module JobSteps {
  import opened Common
  import opened JobModel

  type Rows = map<int, Job>

  // ---- Recovery -------------------------------------------------------------

  /** A scan of the recovery query: distinct running rows, at most 100. Rows that
      another session has locked may be missing from it. */
  predicate IsRunningScan(rows: Rows, batch: seq<int>) {
    && |batch| <= 100
    && (forall i, k :: 0 <= i < k < |batch| ==> batch[i] != batch[k])
    && (forall i :: 0 <= i < |batch| ==> batch[i] in rows && rows[batch[i]].status.Running?)
  }

  function RecoverySet(cfg: Settings, rows: Rows, batch: seq<int>, now: int): set<int> {
    set j | j in batch && j in rows && Stale(cfg, rows[j], now)
  }

  function RecoverRows(cfg: Settings, rows: Rows, batch: seq<int>, now: int, flush: int): Rows {
    map j | j in rows ::
      if j in batch && Stale(cfg, rows[j], now) then Recovered(rows[j], now, flush) else rows[j]
  }

  // ---- Claim ----------------------------------------------------------------

  /** Rows the claim query may return: at most 50, all waiting, due and unlocked. */
  predicate IsCandidateScan(rows: Rows, candidates: seq<int>, now: int) {
    && |candidates| <= 50
    && forall i :: 0 <= i < |candidates| ==> candidates[i] in rows && Claimable(rows[candidates[i]], now)
  }

  function LiveJobs(rows: Rows, account: int, now: int): set<int> {
    set j | j in rows && rows[j].account == Some(account) && LiveLease(rows[j], now)
  }

  function Lookup<V>(m: map<int, V>, k: Option<int>): Option<V> {
    if k.Some? && k.value in m then Some(m[k.value]) else None
  }

  function LimitOf(cfg: Settings, accounts: map<int, Account>, job: Job): int {
    ParallelLimit(cfg, job, Lookup(accounts, job.account))
  }

  /** The capacity check: the account row must be there and lockable, and its live
      jobs must be fewer than the candidate's own limit. */
  predicate HasRoom(cfg: Settings, rows: Rows, accounts: map<int, Account>, lockable: set<int>, j: int, now: int)
    requires j in rows
  {
    rows[j].account.None? ||
    (&& rows[j].account.value in accounts
     && rows[j].account.value in lockable
     && |LiveJobs(rows, rows[j].account.value, now) - {j}| < LimitOf(cfg, accounts, rows[j]))
  }

  /** The first candidate with room. */
  function Pick(cfg: Settings, rows: Rows, accounts: map<int, Account>, lockable: set<int>,
                candidates: seq<int>, now: int): (picked: Option<int>)
    requires forall i :: 0 <= i < |candidates| ==> candidates[i] in rows
    ensures picked.Some? ==>
              picked.value in candidates && HasRoom(cfg, rows, accounts, lockable, picked.value, now)
    ensures picked.None? ==>
              forall i :: 0 <= i < |candidates| ==> !HasRoom(cfg, rows, accounts, lockable, candidates[i], now)
  {
    if candidates == [] then None
    else if HasRoom(cfg, rows, accounts, lockable, candidates[0], now) then Some(candidates[0])
    else Pick(cfg, rows, accounts, lockable, candidates[1..], now)
  }

  /** Nothing with room comes before the pick in the scan. */
  lemma {:induction false} PickIsFirst(cfg: Settings, rows: Rows, accounts: map<int, Account>, lockable: set<int>,
                                       candidates: seq<int>, now: int) returns (i: nat)
    requires forall k :: 0 <= k < |candidates| ==> candidates[k] in rows
    requires Pick(cfg, rows, accounts, lockable, candidates, now).Some?
    ensures i < |candidates| && Pick(cfg, rows, accounts, lockable, candidates, now) == Some(candidates[i])
    ensures HasRoom(cfg, rows, accounts, lockable, candidates[i], now)
    ensures forall k :: 0 <= k < i ==> !HasRoom(cfg, rows, accounts, lockable, candidates[k], now)
  {
    if HasRoom(cfg, rows, accounts, lockable, candidates[0], now) {
      i := 0;
    } else {
      var rest := PickIsFirst(cfg, rows, accounts, lockable, candidates[1..], now);
      i := rest + 1;
      assert forall k :: 0 < k < i ==> candidates[k] == candidates[1..][k - 1];
    }
  }

  // ---- Enqueue --------------------------------------------------------------

  datatype Spec = Spec(target: int, account: Option<int>, key: Option<string>, onboard: bool,
                       minInterval: int, queue: string, maxAttempts: int, runAfter: Option<int>)
  {
    predicate Keyed() { key.Some? && key.value != "" }
  }

  datatype Batch = Batch(rows: Rows, nextId: int, created: nat, skipped: nat)

  /** The newest job of the key is younger than the spec's interval. */
  predicate TooSoon(snapshot: Rows, spec: Spec, now: int) {
    && spec.Keyed() && spec.minInterval > 0
    && exists j :: j in snapshot && snapshot[j].key == spec.key && now - snapshot[j].createdAt < spec.minInterval
  }

  /** Rows the existing-job query finds. */
  function Matches(snapshot: Rows, parser: string, spec: Spec): set<int> {
    if spec.Keyed() && StartsWith(spec.key.value, BACKFILL_PREFIX) then
      set j | j in snapshot && snapshot[j].key == spec.key
    else if spec.Keyed() then
      set j | j in snapshot && snapshot[j].key == spec.key && snapshot[j].Active()
    else
      set j | j in snapshot && snapshot[j].target == spec.target && snapshot[j].account == spec.account
              && snapshot[j].parser == parser && snapshot[j].Active()
  }

  function NewRow(cfg: Settings, parser: string, spec: Spec, now: int, flush: int): Job {
    var queue := ResolveQueue(parser, spec.key, spec.queue);
    Job(parser, spec.target, spec.account, spec.key, queue, spec.onboard, spec.minInterval, Pending, 0,
        if spec.maxAttempts > 0 then spec.maxAttempts else DefaultMaxAttempts(cfg, queue),
        if spec.runAfter.Some? then spec.runAfter.value else now, None, None, flush, flush)
  }

  /** The batch after the given specs. Every query reads the table as it was before
      the batch, because nothing is flushed in between. None: a query found several
      rows where it allows one, and the whole transaction is abandoned. */
  function EnqueueAll(cfg: Settings, snapshot: Rows, nextId: int, parser: string,
                      specs: seq<Spec>, now: int, flush: int): Option<Batch>
  {
    if specs == [] then Some(Batch(snapshot, nextId, 0, 0))
    else
      var before := EnqueueAll(cfg, snapshot, nextId, parser, specs[..|specs| - 1], now, flush);
      if before.None? then None
      else EnqueueOne(cfg, snapshot, before.value, parser, specs[|specs| - 1], now, flush)
  }

  function EnqueueOne(cfg: Settings, snapshot: Rows, b: Batch, parser: string,
                      spec: Spec, now: int, flush: int): Option<Batch>
  {
    if TooSoon(snapshot, spec, now) then Some(b.(skipped := b.skipped + 1))
    else if |Matches(snapshot, parser, spec)| > 1 then None
    else if |Matches(snapshot, parser, spec)| == 1 then Some(b.(skipped := b.skipped + 1))
    else Some(b.(rows := b.rows[b.nextId := NewRow(cfg, parser, spec, now, flush)],
                 nextId := b.nextId + 1, created := b.created + 1))
  }

  predicate DistinctKeys(specs: seq<Spec>) {
    forall i, k :: 0 <= i < k < |specs| ==> specs[i].Keyed() && specs[k].Keyed() && specs[i].key != specs[k].key
  }

  predicate Admitted(snapshot: Rows, parser: string, spec: Spec, now: int) {
    !TooSoon(snapshot, spec, now) && Matches(snapshot, parser, spec) == {}
  }

  /** A batch leaves every old row alone and hands out consecutive ids. */
  lemma {:induction false} EnqueueKeepsRows(
      cfg: Settings, snapshot: Rows, nextId: int, parser: string, specs: seq<Spec>, now: int, flush: int)
    requires forall j :: j in snapshot ==> j < nextId
    requires EnqueueAll(cfg, snapshot, nextId, parser, specs, now, flush).Some?
    ensures var b := EnqueueAll(cfg, snapshot, nextId, parser, specs, now, flush).value;
            && b.created + b.skipped == |specs|
            && b.nextId == nextId + b.created
            && (forall j :: j in snapshot ==> j in b.rows && b.rows[j] == snapshot[j])
            && (forall j :: j in b.rows && j !in snapshot ==> nextId <= j < b.nextId)
  {
    if specs != [] {
      EnqueueKeepsRows(cfg, snapshot, nextId, parser, specs[..|specs| - 1], now, flush);
    }
  }

  /** Every new row comes from an admitted spec of the batch. */
  lemma {:induction false} EnqueueAddsAdmitted(
      cfg: Settings, snapshot: Rows, nextId: int, parser: string, specs: seq<Spec>, now: int, flush: int, j: int)
      returns (i: nat)
    requires forall j :: j in snapshot ==> j < nextId
    requires EnqueueAll(cfg, snapshot, nextId, parser, specs, now, flush).Some?
    requires j in EnqueueAll(cfg, snapshot, nextId, parser, specs, now, flush).value.rows && j !in snapshot
    ensures i < |specs| && Admitted(snapshot, parser, specs[i], now)
    ensures EnqueueAll(cfg, snapshot, nextId, parser, specs, now, flush).value.rows[j]
            == NewRow(cfg, parser, specs[i], now, flush)
  {
    var init := specs[..|specs| - 1];
    var b0 := EnqueueAll(cfg, snapshot, nextId, parser, init, now, flush).value;
    if j in b0.rows {
      EnqueueKeepsRows(cfg, snapshot, nextId, parser, init, now, flush);
      i := EnqueueAddsAdmitted(cfg, snapshot, nextId, parser, init, now, flush, j);
    } else {
      i := |specs| - 1;
    }
  }

  /** With distinct keys in the batch no two new rows share a key. */
  lemma {:induction false} EnqueueNewKeysDiffer(
      cfg: Settings, snapshot: Rows, nextId: int, parser: string, specs: seq<Spec>, now: int, flush: int,
      j: int, k: int)
    requires forall j :: j in snapshot ==> j < nextId
    requires EnqueueAll(cfg, snapshot, nextId, parser, specs, now, flush).Some?
    requires DistinctKeys(specs) && j != k && j !in snapshot && k !in snapshot
    requires j in EnqueueAll(cfg, snapshot, nextId, parser, specs, now, flush).value.rows
    requires k in EnqueueAll(cfg, snapshot, nextId, parser, specs, now, flush).value.rows
    ensures var rows := EnqueueAll(cfg, snapshot, nextId, parser, specs, now, flush).value.rows;
            rows[j].key != rows[k].key
  {
    var init := specs[..|specs| - 1];
    assert DistinctKeys(init);
    var b0 := EnqueueAll(cfg, snapshot, nextId, parser, init, now, flush).value;
    EnqueueKeepsRows(cfg, snapshot, nextId, parser, init, now, flush);
    if j in b0.rows && k in b0.rows {
      EnqueueNewKeysDiffer(cfg, snapshot, nextId, parser, init, now, flush, j, k);
    } else {
      var earlier := if j in b0.rows then j else k;
      var i := EnqueueAddsAdmitted(cfg, snapshot, nextId, parser, init, now, flush, earlier);
      assert specs[i] == init[i];
    }
  }

  /** Every admitted spec of the batch gets a row: nothing asked for is lost. */
  lemma {:induction false} EnqueueServes(
      cfg: Settings, snapshot: Rows, nextId: int, parser: string, specs: seq<Spec>, now: int, flush: int, i: nat)
      returns (j: int)
    requires forall j :: j in snapshot ==> j < nextId
    requires EnqueueAll(cfg, snapshot, nextId, parser, specs, now, flush).Some?
    requires i < |specs| && Admitted(snapshot, parser, specs[i], now)
    ensures var b := EnqueueAll(cfg, snapshot, nextId, parser, specs, now, flush).value;
            j in b.rows && j !in snapshot && b.rows[j] == NewRow(cfg, parser, specs[i], now, flush)
  {
    var init := specs[..|specs| - 1];
    EnqueueKeepsRows(cfg, snapshot, nextId, parser, init, now, flush);
    if i < |init| {
      j := EnqueueServes(cfg, snapshot, nextId, parser, init, now, flush, i);
    } else {
      j := EnqueueAll(cfg, snapshot, nextId, parser, init, now, flush).value.nextId;
    }
  }

  // ---- User steps -----------------------------------------------------------

  predicate Stoppable(job: Job, parser: string, target: int) {
    job.parser == parser && job.target == target && job.Waiting()
  }

  function StopRows(rows: Rows, parser: string, target: int, now: int): Rows {
    map j | j in rows :: if Stoppable(rows[j], parser, target) then StoppedRow(rows[j], now) else rows[j]
  }

  function ResetRows(rows: Rows, chosen: set<int>, now: int): Rows {
    map j | j in rows :: if j in chosen then ResetRow(rows[j], now) else rows[j]
  }

  // ---- What an enqueue lets through -----------------------------------------

  /** Every job of the spec's key is as old as the interval asks. */
  predicate OldEnough(snapshot: Rows, spec: Spec, now: int) {
    spec.key.Some? && spec.key.value != "" && spec.minInterval > 0 ==>
      forall j :: j in snapshot && snapshot[j].key == spec.key ==> now - snapshot[j].createdAt >= spec.minInterval
  }

  /** A job of the key that is under way, or any if the key is of a date range; without a
      key, one of the same target, account and parser that is under way. */
  predicate InTheWay(row: Job, parser: string, spec: Spec) {
    if spec.key.Some? && spec.key.value != "" then
      row.key == spec.key && ("backfill:" <= spec.key.value || !(row.status.Succeeded? || row.status.Failed?))
    else
      && row.target == spec.target && row.account == spec.account && row.parser == parser
      && !(row.status.Succeeded? || row.status.Failed?)
  }

  predicate Unblocked(snapshot: Rows, parser: string, spec: Spec, now: int) {
    OldEnough(snapshot, spec, now) && forall j :: j in snapshot ==> !InTheWay(snapshot[j], parser, spec)
  }

  lemma MatchesAreInTheWay(snapshot: Rows, parser: string, spec: Spec)
    ensures forall j :: j in Matches(snapshot, parser, spec) <==> j in snapshot && InTheWay(snapshot[j], parser, spec)
  {
    forall j | j in snapshot
      ensures j in Matches(snapshot, parser, spec) <==> InTheWay(snapshot[j], parser, spec)
    {
      var row := snapshot[j];
      assert row.Active() <==> !(row.status.Succeeded? || row.status.Failed?);
      assert spec.Keyed() ==> (StartsWith(spec.key.value, BACKFILL_PREFIX) <==> "backfill:" <= spec.key.value);
    }
  }

  lemma TooSoonIff(snapshot: Rows, spec: Spec, now: int)
    ensures TooSoon(snapshot, spec, now) <==> !OldEnough(snapshot, spec, now)
  {}

  lemma AdmittedIffUnblocked(snapshot: Rows, parser: string, spec: Spec, now: int)
    ensures Admitted(snapshot, parser, spec, now) <==> Unblocked(snapshot, parser, spec, now)
  {
    MatchesAreInTheWay(snapshot, parser, spec);
    TooSoonIff(snapshot, spec, now);
    if Matches(snapshot, parser, spec) == {} {
      forall j | j in snapshot
        ensures !InTheWay(snapshot[j], parser, spec)
      {
        assert j !in Matches(snapshot, parser, spec);
      }
    } else {
      var j := Member(Matches(snapshot, parser, spec));
      assert InTheWay(snapshot[j], parser, spec);
    }
  }

  /** One spec of a batch that is not abandoned gets a row exactly when nothing blocks it. */
  lemma SpecGetsRowIff(cfg: Settings, snapshot: Rows, nextId: int, parser: string, specs: seq<Spec>, now: int,
                       flush: int, i: nat)
    requires forall j :: j in snapshot ==> j < nextId
    requires EnqueueAll(cfg, snapshot, nextId, parser, specs, now, flush).Some?
    requires DistinctKeys(specs) && i < |specs| && specs[i].Keyed()
    ensures var rows := EnqueueAll(cfg, snapshot, nextId, parser, specs, now, flush).value.rows;
            (exists j :: j in rows && j !in snapshot && rows[j].key == specs[i].key)
            <==> Unblocked(snapshot, parser, specs[i], now)
  {
    var rows := EnqueueAll(cfg, snapshot, nextId, parser, specs, now, flush).value.rows;
    AdmittedIffUnblocked(snapshot, parser, specs[i], now);
    if Unblocked(snapshot, parser, specs[i], now) {
      var j := EnqueueServes(cfg, snapshot, nextId, parser, specs, now, flush, i);
    }
    if j :| j in rows && j !in snapshot && rows[j].key == specs[i].key {
      var k := EnqueueAddsAdmitted(cfg, snapshot, nextId, parser, specs, now, flush, j);
      assert k == i;
    }
  }

  function UnblockedOnes(snapshot: Rows, parser: string, specs: seq<Spec>, now: int): set<nat> {
    set i: nat | i < |specs| && Unblocked(snapshot, parser, specs[i], now)
  }

  lemma UnblockedGrow(snapshot: Rows, parser: string, init: seq<Spec>, spec: Spec, now: int)
    ensures |UnblockedOnes(snapshot, parser, init + [spec], now)|
            == |UnblockedOnes(snapshot, parser, init, now)|
               + (if Unblocked(snapshot, parser, spec, now) then 1 else 0)
  {
    var specs := init + [spec];
    assert forall i :: 0 <= i < |init| ==> specs[i] == init[i];
    assert UnblockedOnes(snapshot, parser, specs, now)
        == UnblockedOnes(snapshot, parser, init, now)
           + if Unblocked(snapshot, parser, spec, now) then {|init|} else {};
  }

  lemma OneCreatesIff(cfg: Settings, snapshot: Rows, b: Batch, parser: string, spec: Spec, now: int, flush: int)
    requires EnqueueOne(cfg, snapshot, b, parser, spec, now, flush).Some?
    ensures EnqueueOne(cfg, snapshot, b, parser, spec, now, flush).value.created
            == b.created + if Admitted(snapshot, parser, spec, now) then 1 else 0
  {
    assert |Matches(snapshot, parser, spec)| == 0 <==> Matches(snapshot, parser, spec) == {};
  }

  /** Any batch that is not abandoned, with keys or without, creates as many jobs as it has
      specs that nothing blocks. */
  lemma {:induction false} CreatedAreTheUnblocked(cfg: Settings, snapshot: Rows, nextId: int, parser: string,
                                                  specs: seq<Spec>, now: int, flush: int)
    requires EnqueueAll(cfg, snapshot, nextId, parser, specs, now, flush).Some?
    ensures EnqueueAll(cfg, snapshot, nextId, parser, specs, now, flush).value.created
            == |UnblockedOnes(snapshot, parser, specs, now)|
  {
    if specs == [] {
      assert UnblockedOnes(snapshot, parser, specs, now) == {};
    } else {
      var init, spec := specs[..|specs| - 1], specs[|specs| - 1];
      var before := EnqueueAll(cfg, snapshot, nextId, parser, init, now, flush).value;
      CreatedAreTheUnblocked(cfg, snapshot, nextId, parser, init, now, flush);
      AdmittedIffUnblocked(snapshot, parser, spec, now);
      OneCreatesIff(cfg, snapshot, before, parser, spec, now, flush);
      UnblockedGrow(snapshot, parser, init, spec, now);
      assert specs == init + [spec];
    }
  }

  /** Two jobs are in the way of a spec that its interval does not hold back. */
  ghost predicate Ambiguous(snapshot: Rows, parser: string, spec: Spec, now: int) {
    OldEnough(snapshot, spec, now) &&
    exists j, k :: j in snapshot && k in snapshot && j != k
                   && InTheWay(snapshot[j], parser, spec) && InTheWay(snapshot[k], parser, spec)
  }

  lemma ManyMatchIff(snapshot: Rows, parser: string, spec: Spec, now: int)
    ensures !TooSoon(snapshot, spec, now) && |Matches(snapshot, parser, spec)| > 1
            <==> Ambiguous(snapshot, parser, spec, now)
  {
    MatchesAreInTheWay(snapshot, parser, spec);
    TooSoonIff(snapshot, spec, now);
    var found := Matches(snapshot, parser, spec);
    if |found| > 1 {
      var j, k := TwoMembers(found);
    }
    if j, k :| j in found && k in found && j != k {
      SubsetCard({j, k}, found);
    }
  }

  /** A batch is abandoned exactly when that happens to one of its specs. */
  lemma {:induction false} AbandonedIff(cfg: Settings, snapshot: Rows, nextId: int, parser: string,
                                        specs: seq<Spec>, now: int, flush: int)
    ensures EnqueueAll(cfg, snapshot, nextId, parser, specs, now, flush).None? <==>
              exists i :: 0 <= i < |specs| && Ambiguous(snapshot, parser, specs[i], now)
  {
    if specs != [] {
      var init := specs[..|specs| - 1];
      AbandonedIff(cfg, snapshot, nextId, parser, init, now, flush);
      ManyMatchIff(snapshot, parser, specs[|specs| - 1], now);
      assert forall i :: 0 <= i < |init| ==> init[i] == specs[i];
    }
  }

  /** What the row of a spec says: the spec's identity, a fresh count, due when asked or at
      once; on the queue asked for, or the Telegram backfill queue for the two kinds of
      backfill keys, the live queue for other Telegram jobs, and the parser's own queue
      for other parsers; with the attempts asked for, or the queue's setting. */
  lemma RowOfSpec(cfg: Settings, parser: string, spec: Spec, now: int, flush: int, t: int)
    ensures var row := NewRow(cfg, parser, spec, now, flush);
            var backfill := spec.key.Some? && ("backfill:" <= spec.key.value || "backfill-full:" <= spec.key.value);
            && row.parser == parser && row.target == spec.target && row.account == spec.account
            && row.key == spec.key && row.onboard == spec.onboard
            && row.status == Pending && row.attempt == 0 && row.createdAt == flush
            && row.queue != "" && EffectiveQueue(row) == row.queue
            && (OnTelegramQueue(row) <==> row.queue == "telegram_live" || row.queue == "telegram_backfill")
            && (spec.queue != "" ==> row.queue == spec.queue)
            && (spec.queue == "" && parser == "telegram" ==>
                  row.queue == if backfill then "telegram_backfill" else "telegram_live")
            && (spec.queue == "" && parser != "telegram" ==> row.queue == if parser == "" then "web" else parser)
            && (spec.maxAttempts > 0 ==> row.maxAttempts == spec.maxAttempts)
            && (spec.maxAttempts <= 0 ==>
                  && (row.queue == "telegram_backfill" ==> row.maxAttempts == Max(cfg.backfillAttempts, 1))
                  && (row.queue == "telegram_live" ==> row.maxAttempts == Max(cfg.liveAttempts, 1))
                  && (row.queue == "darknet" ==> row.maxAttempts == Max(cfg.darknetAttempts, 1))
                  && (row.queue == "web" ==> row.maxAttempts == Max(cfg.webAttempts, 1))
                  && (row.queue !in {"telegram_live", "telegram_backfill", "darknet", "web"} ==>
                        row.maxAttempts == Max(cfg.otherAttempts, 1)))
            && (Claimable(row, t) <==> t >= if spec.runAfter.Some? then spec.runAfter.value else now)
  {
    assert |TELEGRAM_LIVE| == 13 && |TELEGRAM_BACKFILL| == 17 && |DARKNET| == 7 && |WEB| == 3;
  }

  /** A stop ends exactly the target's waiting jobs of the parser. */
  lemma StopEnds(rows: Rows, parser: string, target: int, now: int, j: int)
    requires j in rows
    ensures var row, after := rows[j], StopRows(rows, parser, target, now)[j];
            if row.parser == parser && row.target == target && (row.status.Pending? || row.status.Retry?)
            then after.status == Failed && after.attempt == row.attempt && after.key == row.key
            else after == row
  {}
}
