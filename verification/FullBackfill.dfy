/** The full-history backfill: batches of descending message ids, each batch one
    transaction that stores its messages and moves the saved offset. */
module FullBackfill {
  import opened Common
  import opened Decimal
  import opened EventSink

  // ---- What the chat returns ------------------------------------------------

  /** Message ids, newest first. */
  predicate History(chat: seq<int>) {
    && (forall i :: 0 <= i < |chat| ==> chat[i] > 0)
    && (forall i, j :: 0 <= i < j < |chat| ==> chat[i] > chat[j])
  }

  /** How many messages an offset skips; an offset of 0 skips none. */
  function Skipped(chat: seq<int>, offset: int): (p: nat)
    ensures p <= |chat|
    ensures forall i :: 0 <= i < p ==> chat[i] >= offset
    ensures offset > 0 && p < |chat| ==> chat[p] < offset
    ensures offset <= 0 ==> p == 0
  {
    if offset <= 0 || chat == [] || chat[0] < offset then 0 else 1 + Skipped(chat[1..], offset)
  }

  /** The messages one read returns: the newest below the offset, at most `limit`. */
  function Fetch(chat: seq<int>, offset: int, limit: nat): seq<int> {
    var p := Skipped(chat, offset);
    chat[p..Min(p + limit, |chat|)]
  }

  /** Reads the messages one by one, counting them and keeping the smallest id and the
      first few ids for the comment walk. */
  method ReadRoots(page: seq<int>, sample: int)
      returns (ids: seq<int>, count: nat, oldest: Option<int>, roots: seq<int>)
    ensures ids == page && count == |page|
    ensures oldest.None? <==> page == []
    ensures oldest.Some? ==> oldest.value in page && forall i :: 0 <= i < |page| ==> oldest.value <= page[i]
    ensures roots == page[..Min(|page|, Max(sample, 1))]
  {
    ids, count, oldest, roots := [], 0, None, [];
    for i := 0 to |page|
      invariant ids == page[..i] && count == i
      invariant oldest.None? <==> i == 0
      invariant oldest.Some? ==> oldest.value in page && forall k :: 0 <= k < i ==> oldest.value <= page[k]
      invariant roots == page[..Min(i, Max(sample, 1))]
    {
      count := count + 1;
      if oldest.None? || page[i] < oldest.value {
        oldest := Some(page[i]);
      }
      ids := ids + [page[i]];
      if |roots| < Max(sample, 1) {
        roots := roots + [page[i]];
      }
    }
  }

  // ---- The saved progress ---------------------------------------------------

  datatype Progress = Progress(done: bool, next: Option<int>)

  /** What a batch leaves behind: finished when it came back short, else the offset
      below which the next one reads. */
  function AfterBatch(limit: int, count: int, oldest: Option<int>): Progress {
    if count <= 0 || oldest.None? || count < Max(limit, 1) then Progress(true, None) else Progress(false, oldest)
  }

  class TargetConfig {
    var progress: map<int, Progress>

    method UpdateFullBackfillState(account: int, limit: int, count: int, oldest: Option<int>)
      modifies this
      ensures progress == old(progress)[account := AfterBatch(limit, count, oldest)]
    {
      var done := count <= 0 || oldest.None? || count < Max(limit, 1);
      var state := Progress(done, None);
      if !done {
        state := state.(next := oldest);
      }
      progress := progress[account := state];
    }
  }

  /** The offset the next job of an account starts from; None once it is done. */
  function OffsetOf(progress: map<int, Progress>, account: int): Option<int> {
    if account !in progress then Some(0)
    else if progress[account].done then None
    else if progress[account].next.None? then Some(0)
    else progress[account].next
  }

  /** What a batch on a chat leaves: done when fewer messages than the limit were left,
      else the last message read is the next offset. */
  function ProgressOf(chat: seq<int>, offset: int, limit: nat): Progress
    requires limit >= 1
  {
    var p := Skipped(chat, offset);
    if p + limit <= |chat| then Progress(false, Some(chat[p + limit - 1])) else Progress(true, None)
  }

  /** One job on a chat, from the read to the saved state. */
  method RunBatch(config: TargetConfig, account: int, chat: seq<int>, offset: int, limit: nat, sample: int)
      returns (ids: seq<int>, roots: seq<int>)
    requires History(chat) && limit >= 1
    modifies config
    ensures ids == Fetch(chat, offset, limit)
    ensures roots == ids[..Min(|ids|, Max(sample, 1))]
    ensures config.progress == old(config.progress)[account := ProgressOf(chat, offset, limit)]
  {
    var count, oldest;
    ids, count, oldest, roots := ReadRoots(Fetch(chat, offset, limit), sample);
    config.UpdateFullBackfillState(account, limit, count, oldest);
    ghost var p := Skipped(chat, offset);
    if p + limit <= |chat| {
      assert ids[limit - 1] == chat[p + limit - 1];
      assert forall i :: 0 <= i < |ids| ==> ids[i] == chat[p + i];
    }
  }

  // ---- Runs -----------------------------------------------------------------

  datatype Job = Job(account: int, offset: int, limit: nat)

  datatype World = World(target: int, chat: seq<int>, progress: map<int, Progress>, jobs: set<Job>, store: Store)

  /** One committed transaction. A job that was planned stays known and may run again at
      any later time: retries, recoveries and late workers are all covered. */
  datatype Action =
    | Post(id: int)
    | Plan(account: int, limit: nat)
    | Reset(account: int)
    | Succeed(job: Job, now: int, texts: seq<Event>, comments: seq<Event>)
    | Fail(job: Job)
    | OtherWriter(ctx: Context, events: seq<Event>)

  function MessageId(m: int): Option<string> {
    Some(PrintInt(m))
  }

  /** The messages of a page as events: any text and date, the id printed in decimal. */
  predicate Carries(texts: seq<Event>, page: seq<int>) {
    |texts| == |page| && forall i :: 0 <= i < |page| ==> texts[i].externalId == MessageId(page[i])
  }

  function BatchContext(w: World, job: Job, now: int): Context {
    Context("telegram", w.target, Some(job.account), None, true, now)
  }

  predicate Enabled(w: World, a: Action) {
    match a
    case Post(id) => id > 0 && (w.chat != [] ==> id > w.chat[0])
    case Reset(_) => true
    case Plan(account, limit) => limit >= 1 && OffsetOf(w.progress, account).Some?
    case Succeed(job, _, texts, _) => job in w.jobs && Carries(texts, Fetch(w.chat, job.offset, job.limit))
    case Fail(job) => job in w.jobs
    case OtherWriter(_, _) => true
  }

  function Next(w: World, a: Action): World
    requires Enabled(w, a) && JobsHaveLimits(w)
  {
    match a
    case Post(id) => w.(chat := [id] + w.chat)
    case Reset(account) => w.(progress := w.progress - {account})
    case Plan(account, limit) => w.(jobs := w.jobs + {Job(account, OffsetOf(w.progress, account).value, limit)})
    case Succeed(job, now, texts, comments) =>
      w.(progress := w.progress[job.account := ProgressOf(w.chat, job.offset, job.limit)],
         store := InsertEach(w.store, BatchContext(w, job, now), texts + comments))
    case Fail(_) => w
    case OtherWriter(ctx, events) => w.(store := InsertEach(w.store, ctx, events))
  }

  predicate JobsHaveLimits(w: World) {
    forall j :: j in w.jobs ==> j.limit >= 1
  }

  ghost predicate IsRun(w: World, actions: seq<Action>)
    requires JobsHaveLimits(w)
    decreases |actions|
  {
    actions == [] || (Enabled(w, actions[0]) && IsRun(Next(w, actions[0]), actions[1..]))
  }

  ghost function After(w: World, actions: seq<Action>): World
    requires JobsHaveLimits(w) && IsRun(w, actions)
    decreases |actions|
  {
    if actions == [] then w else After(Next(w, actions[0]), actions[1..])
  }

  // ---- What every run keeps -------------------------------------------------

  predicate IsMessage(row: Row, target: int, m: int) {
    row.parser == "telegram" && row.target == target && row.externalId == MessageId(m)
  }

  predicate Stored(w: World, m: int) {
    exists i :: 0 <= i < |w.store.rows| && IsMessage(w.store.rows[i], w.target, m)
  }

  /** Every message of `h0` from `offset` up is stored. */
  predicate StoredFrom(w: World, h0: seq<int>, offset: int) {
    forall i :: 0 <= i < |h0| && h0[i] >= offset ==> Stored(w, h0[i])
  }

  /** `h0` is what the chat held at the start; it has only grown since. */
  predicate Grown(w: World, h0: seq<int>) {
    |h0| <= |w.chat| && w.chat[|w.chat| - |h0|..] == h0
  }

  /** Reading below the offset leaves nothing out. */
  predicate SafeOffset(w: World, h0: seq<int>, offset: int) {
    offset > 0 ==> StoredFrom(w, h0, offset)
  }

  predicate SafeProgress(w: World, h0: seq<int>, p: Progress) {
    (p.next.Some? ==> StoredFrom(w, h0, p.next.value)) && (p.done ==> StoredFrom(w, h0, 0))
  }

  /** Offsets in use are safe to skip to; a finished account has left nothing out. */
  predicate Inv(w: World, h0: seq<int>) {
    && History(w.chat) && Grown(w, h0) && JobsHaveLimits(w)
    && UniqueIndex(w.store.rows) && IdsBelow(w.store)
    && (forall j :: j in w.jobs ==> SafeOffset(w, h0, j.offset))
    && (forall a :: a in w.progress ==> SafeProgress(w, h0, w.progress[a]))
  }

  lemma StoreOnlyGrows(w: World, ctx: Context, events: seq<Event>, m: int)
    requires Stored(w, m)
    ensures Stored(w.(store := InsertEach(w.store, ctx, events)), m)
  {
    InsertEachAppendsNewOnes(w.store, ctx, events);
    var w' := w.(store := InsertEach(w.store, ctx, events));
    var i :| 0 <= i < |w.store.rows| && IsMessage(w.store.rows[i], w.target, m);
    assert IsMessage(w'.store.rows[i], w.target, m);
  }

  /** After a batch every message of its page is stored. */
  lemma PageIsStored(w: World, job: Job, now: int, texts: seq<Event>, comments: seq<Event>, k: nat)
    requires JobsHaveLimits(w) && Enabled(w, Succeed(job, now, texts, comments))
    requires k < |Fetch(w.chat, job.offset, job.limit)|
    ensures Stored(Next(w, Succeed(job, now, texts, comments)), Fetch(w.chat, job.offset, job.limit)[k])
  {
    var ctx := BatchContext(w, job, now);
    var m := Fetch(w.chat, job.offset, job.limit)[k];
    var w' := Next(w, Succeed(job, now, texts, comments));
    assert (texts + comments)[k].externalId == MessageId(m);
    PresentAfterBatch(w.store, ctx, texts + comments, MessageId(m));
    var i :| 0 <= i < |w'.store.rows| && Blocks(w'.store.rows[i], ctx, MessageId(m));
    assert IsMessage(w'.store.rows[i], w.target, m);
  }

  lemma FetchedAt(chat: seq<int>, offset: int, limit: nat, at: nat)
    requires Skipped(chat, offset) <= at < |chat| && at < Skipped(chat, offset) + limit
    ensures var k := at - Skipped(chat, offset);
            k < |Fetch(chat, offset, limit)| && Fetch(chat, offset, limit)[k] == chat[at]
  {}

  /** After a batch, what it skipped is stored if its offset was safe, and what it read. */
  lemma BatchCoversAt(w: World, h0: seq<int>, job: Job, now: int, texts: seq<Event>, comments: seq<Event>, at: nat)
    requires JobsHaveLimits(w) && Enabled(w, Succeed(job, now, texts, comments))
    requires Grown(w, h0) && SafeOffset(w, h0, job.offset) && |w.chat| - |h0| <= at < |w.chat|
    requires at < Skipped(w.chat, job.offset) + job.limit
    ensures Stored(Next(w, Succeed(job, now, texts, comments)), w.chat[at])
  {
    var p := Skipped(w.chat, job.offset);
    if at < p {
      assert w.chat[at] == h0[at - (|w.chat| - |h0|)];
      assert Stored(w, w.chat[at]);
      StoreOnlyGrows(w, BatchContext(w, job, now), texts + comments, w.chat[at]);
    } else {
      FetchedAt(w.chat, job.offset, job.limit, at);
      PageIsStored(w, job, now, texts, comments, at - p);
    }
  }

  /** What a batch leaves as the next offset is safe again. */
  lemma BatchCovers(w: World, h0: seq<int>, job: Job, now: int, texts: seq<Event>, comments: seq<Event>)
    requires Inv(w, h0) && Enabled(w, Succeed(job, now, texts, comments))
    ensures SafeProgress(Next(w, Succeed(job, now, texts, comments)), h0, ProgressOf(w.chat, job.offset, job.limit))
  {
    var progress := ProgressOf(w.chat, job.offset, job.limit);
    assert SafeOffset(w, h0, job.offset);
    forall i | 0 <= i < |h0| && h0[i] >= (if progress.done then 0 else progress.next.value)
      ensures Stored(Next(w, Succeed(job, now, texts, comments)), h0[i])
    {
      var at := |w.chat| - |h0| + i;
      assert w.chat[at] == h0[i];
      BatchCoversAt(w, h0, job, now, texts, comments, at);
    }
  }

  /** With a store that has only grown, what was safe to skip to stays so. */
  lemma GrowthKeepsSafe(w: World, w': World, h0: seq<int>)
    requires w.target == w'.target && w.store.rows <= w'.store.rows
    ensures forall offset :: StoredFrom(w, h0, offset) ==> StoredFrom(w', h0, offset)
  {
    forall m | Stored(w, m)
      ensures Stored(w', m)
    {
      var i :| 0 <= i < |w.store.rows| && IsMessage(w.store.rows[i], w.target, m);
      assert IsMessage(w'.store.rows[i], w'.target, m);
    }
  }

  /** A step that only adds rows, and jobs and progress that are safe, keeps the invariant. */
  lemma SafeStepKeepsInv(w: World, w': World, h0: seq<int>)
    requires Inv(w, h0) && w.target == w'.target && w.store.rows <= w'.store.rows
    requires History(w'.chat) && Grown(w', h0) && UniqueIndex(w'.store.rows) && IdsBelow(w'.store)
    requires forall j :: j in w'.jobs ==> j.limit >= 1 && (j in w.jobs || SafeOffset(w', h0, j.offset))
    requires forall a :: a in w'.progress ==>
               (a in w.progress && w'.progress[a] == w.progress[a]) || SafeProgress(w', h0, w'.progress[a])
    ensures Inv(w', h0)
  {
    GrowthKeepsSafe(w, w', h0);
  }

  lemma WriteKeepsIndex(w: World, ctx: Context, events: seq<Event>)
    requires UniqueIndex(w.store.rows) && IdsBelow(w.store)
    ensures var s := InsertEach(w.store, ctx, events);
            w.store.rows <= s.rows && UniqueIndex(s.rows) && IdsBelow(s)
  {
    InsertEachAppendsNewOnes(w.store, ctx, events);
    PersistKeepsIndex(w.store, ctx, events);
  }

  lemma PostedChat(chat: seq<int>, h0: seq<int>, id: int)
    requires History(chat) && id > 0 && (chat != [] ==> id > chat[0])
    requires |h0| <= |chat| && chat[|chat| - |h0|..] == h0
    ensures History([id] + chat) && ([id] + chat)[|chat| + 1 - |h0|..] == h0
  {
    assert ([id] + chat)[|chat| + 1 - |h0|..] == chat[|chat| - |h0|..];
  }

  lemma PostKeepsInv(w: World, h0: seq<int>, id: int)
    requires Inv(w, h0) && Enabled(w, Post(id))
    ensures Inv(Next(w, Post(id)), h0)
  {
    PostedChat(w.chat, h0, id);
    SafeStepKeepsInv(w, Next(w, Post(id)), h0);
  }

  lemma PlanKeepsInv(w: World, h0: seq<int>, account: int, limit: nat)
    requires Inv(w, h0) && Enabled(w, Plan(account, limit))
    ensures Inv(Next(w, Plan(account, limit)), h0)
  {
    var w' := Next(w, Plan(account, limit));
    if account in w.progress {
      assert SafeProgress(w, h0, w.progress[account]);
    }
    GrowthKeepsSafe(w, w', h0);
    SafeStepKeepsInv(w, w', h0);
  }

  lemma SucceedKeepsInv(w: World, h0: seq<int>, job: Job, now: int, texts: seq<Event>, comments: seq<Event>)
    requires Inv(w, h0) && Enabled(w, Succeed(job, now, texts, comments))
    ensures Inv(Next(w, Succeed(job, now, texts, comments)), h0)
  {
    BatchCovers(w, h0, job, now, texts, comments);
    WriteKeepsIndex(w, BatchContext(w, job, now), texts + comments);
    SafeStepKeepsInv(w, Next(w, Succeed(job, now, texts, comments)), h0);
  }

  lemma WriterKeepsInv(w: World, h0: seq<int>, ctx: Context, events: seq<Event>)
    requires Inv(w, h0)
    ensures Inv(Next(w, OtherWriter(ctx, events)), h0)
  {
    WriteKeepsIndex(w, ctx, events);
    SafeStepKeepsInv(w, Next(w, OtherWriter(ctx, events)), h0);
  }

  lemma ResetKeepsInv(w: World, h0: seq<int>, account: int)
    requires Inv(w, h0)
    ensures Inv(Next(w, Reset(account)), h0)
  {
    SafeStepKeepsInv(w, Next(w, Reset(account)), h0);
  }

  lemma NextKeepsInv(w: World, h0: seq<int>, a: Action)
    requires Inv(w, h0) && Enabled(w, a)
    ensures Inv(Next(w, a), h0)
  {
    match a
    case Post(id) => PostKeepsInv(w, h0, id);
    case Reset(account) => ResetKeepsInv(w, h0, account);
    case Plan(account, limit) => PlanKeepsInv(w, h0, account, limit);
    case Succeed(job, now, texts, comments) => SucceedKeepsInv(w, h0, job, now, texts, comments);
    case Fail(_) =>
    case OtherWriter(ctx, events) => WriterKeepsInv(w, h0, ctx, events);
  }

  lemma {:induction false} EveryRunKeepsInv(w: World, h0: seq<int>, actions: seq<Action>)
    requires Inv(w, h0) && IsRun(w, actions)
    ensures Inv(After(w, actions), h0)
    decreases |actions|
  {
    if actions != [] {
      NextKeepsInv(w, h0, actions[0]);
      EveryRunKeepsInv(Next(w, actions[0]), h0, actions[1..]);
    }
  }

  /** A target before its first full backfill. */
  predicate Start(w: World) {
    History(w.chat) && w.progress == map[] && w.jobs == {} && UniqueIndex(w.store.rows) && IdsBelow(w.store)
  }

  /** The row of a message is the only one. */
  predicate StoredOnce(w: World, m: int) {
    exists i :: 0 <= i < |w.store.rows| && IsMessage(w.store.rows[i], w.target, m)
                && forall k :: 0 <= k < |w.store.rows| && IsMessage(w.store.rows[k], w.target, m) ==> k == i
  }

  /** In every run, whatever failed, was retried or ran late: each message the chat held
      at the start, from an account's saved offset up, is stored exactly once; and once
      an account is done, all of them are. */
  lemma BackfillIsComplete(w: World, actions: seq<Action>, account: int)
    requires Start(w) && IsRun(w, actions) && account in After(w, actions).progress
    ensures var w' := After(w, actions);
            forall i :: 0 <= i < |w.chat| && (OffsetOf(w'.progress, account).None?
                                              || w.chat[i] >= OffsetOf(w'.progress, account).value > 0) ==>
              StoredOnce(w', w.chat[i])
  {
    EveryRunKeepsInv(w, w.chat, actions);
    var w' := After(w, actions);
    forall m | Stored(w', m)
      ensures StoredOnce(w', m)
    {
      var i :| 0 <= i < |w'.store.rows| && IsMessage(w'.store.rows[i], w'.target, m);
      assert forall k :: 0 <= k < |w'.store.rows| && IsMessage(w'.store.rows[k], w'.target, m) ==> k == i;
    }
  }

  // ---- Progress of one account ----------------------------------------------

  /** Below the k-th message lies the rest after it. */
  lemma SkippedAt(chat: seq<int>, k: nat)
    requires History(chat) && 0 < k <= |chat|
    ensures Skipped(chat, chat[k - 1]) == k
  {
    assert forall i :: 0 <= i < |chat| ==> (chat[i] >= chat[k - 1] <==> i < k);
  }

  /** What is left of an account's backfill: its unread messages and the read that finds
      none; nothing once it is done. */
  function Left(chat: seq<int>, saved: Option<int>): nat {
    if saved.None? then 0 else |chat| - Skipped(chat, saved.value) + 1
  }

  function Saved(w: World, account: int): Option<int> {
    OffsetOf(w.progress, account)
  }

  /** The saved offset went down, from the top included, or the backfill ended. */
  predicate MovesOn(before: Option<int>, after: Option<int>) {
    before.Some? && (after.None? || before.value <= 0 || after.value < before.value)
  }

  /** What a success saves, whenever its job was planned. */
  lemma SuccessSaves(w: World, job: Job, now: int, texts: seq<Event>, comments: seq<Event>)
    requires History(w.chat) && JobsHaveLimits(w) && Enabled(w, Succeed(job, now, texts, comments))
    ensures var saved := Saved(Next(w, Succeed(job, now, texts, comments)), job.account);
            var p := Skipped(w.chat, job.offset) + job.limit;
            && saved == (if p <= |w.chat| then Some(w.chat[p - 1]) else None)
            && Left(w.chat, saved) == (if p <= |w.chat| then |w.chat| - p + 1 else 0)
  {
    var p := Skipped(w.chat, job.offset) + job.limit;
    if p <= |w.chat| {
      SkippedAt(w.chat, p);
    }
  }

  /** Exactly when a success moves its account on, in every state: the account is not
      done, and fewer messages than the job's limit lie between the job's offset and the
      saved one. It ends the backfill exactly when fewer messages than the limit are left
      below the job's offset; so a late job takes a done account back exactly when the
      limit finds enough. */
  lemma SuccessMovesOnIff(w: World, job: Job, now: int, texts: seq<Event>, comments: seq<Event>)
    requires History(w.chat) && JobsHaveLimits(w) && Enabled(w, Succeed(job, now, texts, comments))
    ensures var before := Saved(w, job.account);
            var after := Saved(Next(w, Succeed(job, now, texts, comments)), job.account);
            && (MovesOn(before, after) <==>
                  before.Some? && Skipped(w.chat, before.value) - Skipped(w.chat, job.offset) < job.limit)
            && (MovesOn(before, after) <==> Left(w.chat, after) < Left(w.chat, before))
            && (after.None? <==> Skipped(w.chat, job.offset) + job.limit > |w.chat|)
  {
    SuccessSaves(w, job, now, texts, comments);
    var before, p := Saved(w, job.account), Skipped(w.chat, job.offset) + job.limit;
    if before.Some? && p <= |w.chat| {
      OffsetIsBelowIff(w.chat, before.value, p);
    }
  }

  lemma OffsetIsBelowIff(chat: seq<int>, saved: int, p: nat)
    requires History(chat) && 0 < p <= |chat|
    ensures saved > 0 ==> (chat[p - 1] < saved <==> Skipped(chat, saved) < p)
    ensures saved <= 0 ==> Skipped(chat, saved) == 0
  {
    var q := Skipped(chat, saved);
    assert forall i :: q <= i < |chat| ==> chat[i] <= chat[q];
  }

  /** A success of the job planned at the saved offset always moves on. */
  lemma PlannedSuccessMovesOn(w: World, job: Job, now: int, texts: seq<Event>, comments: seq<Event>)
    requires History(w.chat) && JobsHaveLimits(w) && Enabled(w, Succeed(job, now, texts, comments))
    requires Saved(w, job.account) == Some(job.offset)
    ensures MovesOn(Saved(w, job.account), Saved(Next(w, Succeed(job, now, texts, comments)), job.account))
  {
    SuccessMovesOnIff(w, job, now, texts, comments);
  }

  // ---- Progress over runs ---------------------------------------------------

  function Successes(actions: seq<Action>, account: int): nat {
    if actions == [] then 0
    else SuccessOf(actions[0], account) + Successes(actions[1..], account)
  }

  function SuccessOf(a: Action, account: int): nat {
    if a.Succeed? && a.job.account == account then 1 else 0
  }

  function Posts(actions: seq<Action>): nat {
    if actions == [] then 0 else PostOf(actions[0]) + Posts(actions[1..])
  }

  function PostOf(a: Action): nat {
    if a.Post? then 1 else 0
  }

  /** The account's progress is not reset, and each of its successes finds fewer messages
      than its limit between its job's offset and the saved one, which is exactly what
      makes it move on. Everything else is free: failures, plans, other accounts, other
      writers and new messages. */
  ghost predicate MovingOn(w: World, actions: seq<Action>, account: int)
    requires JobsHaveLimits(w) && IsRun(w, actions)
    decreases |actions|
  {
    actions == [] ||
    (&& MovingOnStep(w, actions[0], account)
     && MovingOn(Next(w, actions[0]), actions[1..], account))
  }

  predicate MovingOnStep(w: World, a: Action, account: int) {
    && (a.Reset? ==> a.account != account)
    && (a.Succeed? && a.job.account == account ==>
          && Saved(w, account).Some?
          && Skipped(w.chat, Saved(w, account).value) - Skipped(w.chat, a.job.offset) < a.job.limit)
  }

  /** The account succeeds only with jobs planned at the offset saved when they run. */
  ghost predicate OnCourse(w: World, actions: seq<Action>, account: int)
    requires JobsHaveLimits(w) && IsRun(w, actions)
    decreases |actions|
  {
    actions == [] ||
    (&& OnCourseStep(w, actions[0], account)
     && OnCourse(Next(w, actions[0]), actions[1..], account))
  }

  predicate OnCourseStep(w: World, a: Action, account: int) {
    && (a.Reset? ==> a.account != account)
    && (a.Succeed? && a.job.account == account ==> Saved(w, account) == Some(a.job.offset))
  }

  lemma {:induction false} OnCourseMovesOn(w: World, actions: seq<Action>, account: int)
    requires JobsHaveLimits(w) && IsRun(w, actions) && OnCourse(w, actions, account)
    ensures MovingOn(w, actions, account)
    decreases |actions|
  {
    if actions != [] {
      OnCourseMovesOn(Next(w, actions[0]), actions[1..], account);
    }
  }

  lemma PostAddsOne(chat: seq<int>, id: int, saved: Option<int>)
    requires History(chat) && id > 0 && (chat != [] ==> id > chat[0])
    ensures History([id] + chat) && Left([id] + chat, saved) <= Left(chat, saved) + 1
  {
    assert ([id] + chat)[1..] == chat;
  }

  /** Such a step uses up what is left: one for a success of the account, and only a new
      message adds to it. */
  lemma StepUsesLeft(w: World, a: Action, account: int)
    requires History(w.chat) && JobsHaveLimits(w) && Enabled(w, a) && MovingOnStep(w, a, account)
    ensures var w' := Next(w, a);
            && History(w'.chat) && JobsHaveLimits(w')
            && Left(w'.chat, Saved(w', account)) + SuccessOf(a, account)
               <= Left(w.chat, Saved(w, account)) + PostOf(a)
  {
    match a
    case Post(id) => PostAddsOne(w.chat, id, Saved(w, account));
    case Succeed(job, now, texts, comments) =>
      if job.account == account {
        SuccessMovesOnIff(w, job, now, texts, comments);
      }
    case _ =>
  }

  /** Over every run that moves on: what is left afterwards, and one for every success, is at
      most what was left before and one for every message that came. */
  lemma {:induction false} SuccessesUseLeft(w: World, actions: seq<Action>, account: int)
    requires History(w.chat) && JobsHaveLimits(w) && IsRun(w, actions) && MovingOn(w, actions, account)
    ensures var w' := After(w, actions);
            Left(w'.chat, Saved(w', account)) + Successes(actions, account)
            <= Left(w.chat, Saved(w, account)) + Posts(actions)
    decreases |actions|
  {
    if actions != [] {
      StepUsesLeft(w, actions[0], account);
      SuccessesUseLeft(Next(w, actions[0]), actions[1..], account);
    }
  }

  /** So the backfill is done after at most one success more than the messages there were
      and came, whatever the limits and whatever failed in between. */
  lemma DoneInTime(w: World, actions: seq<Action>, account: int)
    requires History(w.chat) && JobsHaveLimits(w) && IsRun(w, actions) && MovingOn(w, actions, account)
    requires Successes(actions, account) > |w.chat| + Posts(actions)
    ensures Saved(After(w, actions), account).None?
  {
    SuccessesUseLeft(w, actions, account);
  }

  function TextsFor(page: seq<int>): (r: seq<Event>)
    ensures Carries(r, page)
  {
    seq(|page|, i requires 0 <= i < |page| => Event(MessageId(page[i]), None, ""))
  }

  /** And it never gets stuck: until an account is done, its next batch can be planned and
      can succeed, and that moves it on. */
  lemma NextBatchMovesOn(w: World, account: int, limit: nat) returns (plan: Action, success: Action)
    requires History(w.chat) && JobsHaveLimits(w) && Saved(w, account).Some? && limit >= 1
    ensures Enabled(w, plan) && JobsHaveLimits(Next(w, plan)) && Enabled(Next(w, plan), success)
    ensures MovesOn(Saved(w, account), Saved(Next(Next(w, plan), success), account))
  {
    var job := Job(account, Saved(w, account).value, limit);
    plan := Plan(account, limit);
    success := Succeed(job, 0, TextsFor(Fetch(w.chat, job.offset, limit)), []);
    PlannedSuccessMovesOn(Next(w, plan), job, 0, TextsFor(Fetch(w.chat, job.offset, limit)), []);
  }

  // ---- A chat at rest -------------------------------------------------------

  /** The offset after k messages. */
  function OffsetAfter(chat: seq<int>, k: nat): int
    requires k <= |chat|
  {
    if k == 0 then 0 else chat[k - 1]
  }

  /** What is saved when batches have asked for k messages. */
  function SavedAfter(chat: seq<int>, k: nat): Option<int> {
    if k <= |chat| then Some(OffsetAfter(chat, k)) else None
  }

  /** How many messages the account's successful batches asked for. */
  function Asked(actions: seq<Action>, account: int): nat {
    if actions == [] then 0 else AskedBy(actions[0], account) + Asked(actions[1..], account)
  }

  function AskedBy(a: Action, account: int): nat {
    if SuccessOf(a, account) == 1 then a.job.limit else 0
  }

  /** Nothing is posted. */
  predicate AtRest(actions: seq<Action>) {
    actions == [] || (!actions[0].Post? && AtRest(actions[1..]))
  }

  lemma SuccessReads(w: World, job: Job, now: int, texts: seq<Event>, comments: seq<Event>, k: nat)
    requires History(w.chat) && JobsHaveLimits(w) && Enabled(w, Succeed(job, now, texts, comments))
    requires Saved(w, job.account) == Some(job.offset) == SavedAfter(w.chat, k)
    ensures Saved(Next(w, Succeed(job, now, texts, comments)), job.account) == SavedAfter(w.chat, k + job.limit)
  {
    assert k <= |w.chat| && job.offset == OffsetAfter(w.chat, k);
    OffsetSkips(w.chat, k);
    SuccessSaves(w, job, now, texts, comments);
    SavedAfterMore(w.chat, k, job.limit);
  }

  lemma SavedAfterMore(chat: seq<int>, k: nat, limit: nat)
    requires limit >= 1
    ensures SavedAfter(chat, k + limit) == if k + limit <= |chat| then Some(chat[k + limit - 1]) else None
  {}

  lemma OffsetSkips(chat: seq<int>, k: nat)
    requires History(chat) && k <= |chat|
    ensures Skipped(chat, OffsetAfter(chat, k)) == k
  {
    if k > 0 {
      SkippedAt(chat, k);
    }
  }

  lemma OtherStepKeepsSaved(w: World, a: Action, account: int)
    requires JobsHaveLimits(w) && Enabled(w, a) && OnCourseStep(w, a, account) && SuccessOf(a, account) == 0
    ensures JobsHaveLimits(Next(w, a)) && Saved(Next(w, a), account) == Saved(w, account)
  {}

  lemma RestStep(w: World, a: Action, account: int, k: nat)
    requires History(w.chat) && JobsHaveLimits(w) && Enabled(w, a) && OnCourseStep(w, a, account)
    requires !a.Post? && Saved(w, account) == SavedAfter(w.chat, k)
    ensures Next(w, a).chat == w.chat && JobsHaveLimits(Next(w, a))
    ensures Saved(Next(w, a), account) == SavedAfter(w.chat, k + AskedBy(a, account))
  {
    if SuccessOf(a, account) == 1 {
      SuccessReads(w, a.job, a.now, a.texts, a.comments, k);
    } else {
      OtherStepKeepsSaved(w, a, account);
    }
  }

  lemma {:induction false} RunReads(w: World, actions: seq<Action>, account: int, k: nat)
    requires History(w.chat) && JobsHaveLimits(w) && IsRun(w, actions) && OnCourse(w, actions, account)
    requires AtRest(actions) && Saved(w, account) == SavedAfter(w.chat, k)
    ensures Saved(After(w, actions), account) == SavedAfter(w.chat, k + Asked(actions, account))
    decreases |actions|
  {
    if actions != [] {
      var a, rest := actions[0], actions[1..];
      RestStep(w, a, account, k);
      var w1 := Next(w, a);
      RunReads(w1, rest, account, k + AskedBy(a, account));
      assert After(w, actions) == After(w1, rest);
      assert Asked(actions, account) == AskedBy(a, account) + Asked(rest, account);
    }
  }

  /** From a fresh start on a chat at rest, over every run on course and for any limits:
      the account is done exactly when its successful batches have asked for more messages
      than there are, and until then the saved offset is the last message read. */
  lemma DoneIff(w: World, actions: seq<Action>, account: int)
    requires History(w.chat) && JobsHaveLimits(w) && IsRun(w, actions) && OnCourse(w, actions, account)
    requires AtRest(actions) && Saved(w, account) == Some(0)
    ensures var read := Asked(actions, account);
            Saved(After(w, actions), account) == if read > |w.chat| then None else Some(OffsetAfter(w.chat, read))
  {
    RunReads(w, actions, account, 0);
  }

  /** Every success of the account is of this limit. */
  predicate OneLimit(actions: seq<Action>, account: int, limit: nat) {
    actions == [] ||
    ((SuccessOf(actions[0], account) == 1 ==> actions[0].job.limit == limit) && OneLimit(actions[1..], account, limit))
  }

  lemma {:induction false} AskedIsProduct(actions: seq<Action>, account: int, limit: nat)
    requires OneLimit(actions, account, limit)
    ensures Asked(actions, account) == Successes(actions, account) * limit
  {
    if actions != [] {
      AskedIsProduct(actions[1..], account, limit);
      var n := Successes(actions[1..], account);
      assert (1 + n) * limit == limit + n * limit;
    }
  }

  /** With one limit: after n successes done exactly when n times the limit is more than
      there is. */
  lemma DoneIffProduct(w: World, actions: seq<Action>, account: int, limit: nat)
    requires History(w.chat) && JobsHaveLimits(w) && IsRun(w, actions) && OnCourse(w, actions, account)
    requires AtRest(actions) && Saved(w, account) == Some(0) && OneLimit(actions, account, limit)
    ensures Saved(After(w, actions), account).None? <==> Successes(actions, account) * limit > |w.chat|
  {
    DoneIff(w, actions, account);
    AskedIsProduct(actions, account, limit);
  }

  // ---- Late jobs ------------------------------------------------------------

  /** A successful batch of account 1 with limit 1. */
  function Batch(offset: int, page: seq<int>): Action {
    Succeed(Job(1, offset, 1), 0, TextsFor(page), [])
  }

  lemma PlanStep(w: World, offset: int)
    requires JobsHaveLimits(w) && Saved(w, 1) == Some(offset)
    ensures Enabled(w, Plan(1, 1)) && JobsHaveLimits(Next(w, Plan(1, 1)))
    ensures Next(w, Plan(1, 1)) == w.(jobs := w.jobs + {Job(1, offset, 1)})
  {}

  lemma BatchStep(w: World, offset: int, k: nat)
    requires JobsHaveLimits(w) && Job(1, offset, 1) in w.jobs && Skipped(w.chat, offset) == k
    ensures var a := Batch(offset, if k < |w.chat| then [w.chat[k]] else []);
            && Enabled(w, a) && JobsHaveLimits(Next(w, a))
            && Next(w, a).chat == w.chat && Next(w, a).jobs == w.jobs
            && Saved(Next(w, a), 1) == if k < |w.chat| then Some(w.chat[k]) else None
  {
    assert Fetch(w.chat, offset, 1) == if k < |w.chat| then [w.chat[k]] else [];
  }

  /** The condition is needed: two batches run, then the first one's job is retried, and
      the saved offset goes back up, from 3 to 4. */
  lemma RetriedJobRaisesOffset() returns (w: World, actions: seq<Action>)
    ensures Start(w) && IsRun(w, actions) && JobsHaveLimits(After(w, actions))
    ensures Saved(After(w, actions), 1) == Some(3)
    ensures Enabled(After(w, actions), Batch(0, [4])) && Saved(Next(After(w, actions), Batch(0, [4])), 1) == Some(4)
  {
    w := World(7, [4, 3, 2, 1], map[], {}, Store([], 1));
    SkippedAt(w.chat, 1);
    actions := TwoBatches(w, 0, 4, [4], [3]);
    BatchStep(After(w, actions), 0, 0);
  }

  /** And an account that was done is not: the retry of its first batch takes it back. */
  lemma RetriedJobUndoesDone() returns (w: World, actions: seq<Action>)
    ensures Start(w) && IsRun(w, actions) && JobsHaveLimits(After(w, actions))
    ensures Saved(After(w, actions), 1) == None
    ensures Enabled(After(w, actions), Batch(0, [2])) && Saved(Next(After(w, actions), Batch(0, [2])), 1) == Some(2)
  {
    w := World(7, [2], map[], {}, Store([], 1));
    SkippedAt(w.chat, 1);
    actions := TwoBatches(w, 0, 2, [2], []);
    BatchStep(After(w, actions), 0, 0);
  }

  /** The first two batches of a fresh target, each planned and run. */
  lemma TwoBatches(w: World, first: int, second: int, one: seq<int>, two: seq<int>) returns (actions: seq<Action>)
    requires Start(w) && |w.chat| >= 1 && first == 0 && second == w.chat[0] && Skipped(w.chat, second) == 1
    requires one == [w.chat[0]] && two == if |w.chat| > 1 then [w.chat[1]] else []
    ensures IsRun(w, actions) && JobsHaveLimits(After(w, actions))
    ensures After(w, actions).chat == w.chat && Job(1, 0, 1) in After(w, actions).jobs
    ensures Saved(After(w, actions), 1) == if |w.chat| > 1 then Some(w.chat[1]) else None
  {
    PlanStep(w, 0);
    var w1 := Next(w, Plan(1, 1));
    BatchStep(w1, 0, 0);
    var w2 := Next(w1, Batch(0, one));
    PlanStep(w2, second);
    var w3 := Next(w2, Plan(1, 1));
    BatchStep(w3, second, 1);
    var w4 := Next(w3, Batch(second, two));
    actions := [Plan(1, 1), Batch(0, one), Plan(1, 1), Batch(second, two)];
    RunOf4(w, Plan(1, 1), Batch(0, one), Plan(1, 1), Batch(second, two), w1, w2, w3, w4);
  }

  lemma RunOf4(w0: World, a: Action, b: Action, c: Action, d: Action, w1: World, w2: World, w3: World, w4: World)
    requires JobsHaveLimits(w0) && Enabled(w0, a) && w1 == Next(w0, a)
    requires JobsHaveLimits(w1) && Enabled(w1, b) && w2 == Next(w1, b)
    requires JobsHaveLimits(w2) && Enabled(w2, c) && w3 == Next(w2, c)
    requires JobsHaveLimits(w3) && Enabled(w3, d) && w4 == Next(w3, d)
    requires JobsHaveLimits(w4)
    ensures IsRun(w0, [a, b, c, d]) && After(w0, [a, b, c, d]) == w4
  {
    assert [a, b, c, d][1..] == [b, c, d] && [b, c, d][1..] == [c, d] && [c, d][1..] == [d] && [d][1..] == [];
    assert IsRun(w4, []) && After(w4, []) == w4;
    assert IsRun(w3, [d]) && After(w3, [d]) == w4;
    assert IsRun(w2, [c, d]) && After(w2, [c, d]) == w4;
    assert IsRun(w1, [b, c, d]) && After(w1, [b, c, d]) == w4;
  }
}
