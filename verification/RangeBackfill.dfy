/** The range backfill: a date range cut into chunks, one job a chunk, each storing what
    it reads through the deduplicating sink. Times are in microseconds. */
module RangeBackfill {
  import opened Common
  import opened Decimal
  import opened EventSink
  import Identifiers

  const SECOND := 1_000_000
  const DAY := 86_400 * SECOND

  // ---- Cutting the range ----------------------------------------------------

  datatype Range = Range(from: int, to: int)

  datatype BackfillConfig = BackfillConfig(enabled: bool, mode: string, from: Option<int>, to: Option<int>,
                                           chunkDays: int)

  /** The mode, case and blanks aside; anything unknown means a date range. */
  function Mode(mode: string): string {
    var m := Identifiers.Lower(Identifiers.Strip(if mode == "" then "range" else mode));
    if m == "range" || m == "full" then m else "range"
  }

  predicate Splits(config: BackfillConfig) {
    && config.enabled && Mode(config.mode) == "range"
    && config.from.Some? && config.to.Some? && config.from.value < config.to.value
  }

  function Step(config: BackfillConfig): (s: int)
    ensures s >= DAY
  {
    Max(config.chunkDays, 1) * DAY
  }

  /** Chunks that cover [start, end] end to start without gap or overlap, every one but
      the last of full length. */
  predicate Tiles(ranges: seq<Range>, start: int, end: int, step: int) {
    && ranges != [] && ranges[0].from == start && ranges[|ranges| - 1].to == end
    && (forall i :: 0 <= i < |ranges| ==> ranges[i].from < ranges[i].to <= ranges[i].from + step)
    && (forall i :: 0 <= i < |ranges| - 1 ==>
          ranges[i].to == ranges[i].from + step && ranges[i + 1].from == ranges[i].to)
  }

  function ChunksFrom(cursor: int, end: int, step: int): seq<Range>
    requires step > 0
    decreases end - cursor
  {
    if cursor >= end then []
    else [Range(cursor, Min(cursor + step, end))] + ChunksFrom(Min(cursor + step, end), end, step)
  }

  function Chunks(config: BackfillConfig): seq<Range> {
    if Splits(config) then ChunksFrom(config.from.value, config.to.value, Step(config)) else []
  }

  method BuildBackfillRanges(config: BackfillConfig) returns (ranges: seq<Range>)
    ensures ranges == Chunks(config)
  {
    ranges := [];
    if !config.enabled || Mode(config.mode) != "range" || config.from.None? || config.to.None?
       || config.to.value <= config.from.value {
      return;
    }
    var end, step := config.to.value, Step(config);
    var cursor := config.from.value;
    while cursor < end
      invariant ranges + ChunksFrom(cursor, end, step) == ChunksFrom(config.from.value, end, step)
      decreases end - cursor
    {
      var upper := Min(cursor + step, end);
      ranges := ranges + [Range(cursor, upper)];
      cursor := upper;
    }
  }

  /** The chunks tile the range. */
  lemma {:induction false} ChunksTile(start: int, end: int, step: int)
    requires start < end && step > 0
    ensures Tiles(ChunksFrom(start, end, step), start, end, step)
    decreases end - start
  {
    var upper := Min(start + step, end);
    if upper < end {
      ChunksTile(upper, end, step);
      LongerTiling(ChunksFrom(upper, end, step), start, end, step);
    }
  }

  lemma LongerTiling(rest: seq<Range>, start: int, end: int, step: int)
    requires step > 0 && Tiles(rest, start + step, end, step)
    ensures Tiles([Range(start, start + step)] + rest, start, end, step)
  {
    var all := [Range(start, start + step)] + rest;
    assert forall i :: 0 < i < |all| ==> all[i] == rest[i - 1];
  }

  /** There is no other way to tile a range. */
  lemma {:induction false} TilingIsUnique(a: seq<Range>, start: int, end: int, step: int)
    requires step > 0 && Tiles(a, start, end, step)
    ensures start < end && a == ChunksFrom(start, end, step)
  {
    if |a| > 1 {
      TilingIsUnique(a[1..], start + step, end, step);
      assert a == [Range(start, start + step)] + a[1..];
    } else {
      assert a == [Range(start, end)];
    }
  }

  /** Every instant of the closed range lies in a chunk. */
  lemma {:induction false} ChunkOf(ranges: seq<Range>, start: int, end: int, step: int, t: int) returns (i: nat)
    requires Tiles(ranges, start, end, step) && start <= t <= end
    ensures i < |ranges| && ranges[i].from <= t <= ranges[i].to
  {
    if t <= ranges[0].to {
      i := 0;
    } else {
      i := ChunkOf(ranges[1..], ranges[0].to, end, step, t);
      i := i + 1;
    }
  }

  lemma {:induction false} ChunksInside(ranges: seq<Range>, start: int, end: int, step: int, i: nat)
    requires Tiles(ranges, start, end, step) && i < |ranges|
    ensures start <= ranges[i].from && ranges[i].to <= end
  {
    if |ranges| > 1 {
      ChunksInside(ranges[1..], ranges[0].to, end, step, if i == 0 then 0 else i - 1);
    }
  }

  // ---- Reading a chunk ------------------------------------------------------

  datatype Message = Message(id: int, date: int, text: string)

  /** A chat, newest first: ids fall, dates do not rise, dates are whole seconds. */
  predicate History(chat: seq<Message>) {
    && (forall i :: 0 <= i < |chat| ==> chat[i].id > 0 && chat[i].date % SECOND == 0)
    && (forall i, j :: 0 <= i < j < |chat| ==> chat[i].id > chat[j].id && chat[i].date >= chat[j].date)
  }

  predicate NewestFirst(chat: seq<Message>) {
    forall i, j :: 0 <= i < j < |chat| ==> chat[i].date >= chat[j].date
  }

  predicate Within(m: Message, from: Option<int>, to: Option<int>) {
    (from.Some? ==> from.value <= m.date) && (to.Some? ==> m.date <= to.value)
  }

  /** The messages dated in the closed range, in order. */
  function InRange(chat: seq<Message>, from: Option<int>, to: Option<int>): seq<Message> {
    if chat == [] then []
    else
      var m := chat[|chat| - 1];
      InRange(chat[..|chat| - 1], from, to) + if Within(m, from, to) then [m] else []
  }

  /** How many messages at the front are dated at or after t. */
  function Leading(chat: seq<Message>, t: int): (p: nat)
    ensures p <= |chat|
    ensures forall i :: 0 <= i < p ==> chat[i].date >= t
    ensures p < |chat| ==> chat[p].date < t
  {
    if chat == [] || chat[0].date < t then 0 else 1 + Leading(chat[1..], t)
  }

  /** The offset date, one second after `to` and cut to whole seconds on the wire. */
  function OffsetDate(to: int): int {
    (to + SECOND) / SECOND * SECOND
  }

  function AfterRange(chat: seq<Message>, to: Option<int>): (k: nat)
    ensures k <= |chat|
  {
    if to.None? then 0 else Leading(chat, OffsetDate(to.value))
  }

  /** What the chat is asked for: at most `limit` messages dated before the offset date. */
  function Stream(chat: seq<Message>, to: Option<int>, limit: nat): seq<Message> {
    var k := AfterRange(chat, to);
    chat[k..Min(k + limit, |chat|)]
  }

  function Newest(chat: seq<Message>, limit: nat): seq<Message> {
    chat[..Min(limit, |chat|)]
  }

  /** Stops at the first message before the range and skips those after it. */
  method CollectRange(stream: seq<Message>, from: Option<int>, to: Option<int>) returns (out: seq<Message>)
    requires NewestFirst(stream)
    ensures out == InRange(stream, from, to)
  {
    out := [];
    var i := 0;
    while i < |stream|
      invariant 0 <= i <= |stream|
      invariant out == InRange(stream[..i], from, to)
    {
      var m := stream[i];
      assert stream[..i + 1][..i] == stream[..i];
      if from.Some? && m.date < from.value {
        NothingFurther(stream, from, to, i);
        break;
      }
      i := i + 1;
      if to.Some? && m.date > to.value {
        continue;
      }
      out := out + [m];
    }
    assert stream[..|stream|] == stream;
  }

  /** Past the first message before the range there is nothing more of it. */
  lemma {:induction false} NothingFurther(stream: seq<Message>, from: Option<int>, to: Option<int>, i: nat)
    requires NewestFirst(stream) && i < |stream| && from.Some? && stream[i].date < from.value
    ensures InRange(stream, from, to) == InRange(stream[..i], from, to)
    decreases |stream|
  {
    var init := stream[..|stream| - 1];
    if i < |init| {
      NothingFurther(init, from, to, i);
      assert init[..i] == stream[..i];
    }
  }

  lemma {:induction false} InRangeSplits(a: seq<Message>, b: seq<Message>, from: Option<int>, to: Option<int>)
    ensures InRange(a + b, from, to) == InRange(a, from, to) + InRange(b, from, to)
  {
    if b == [] {
      assert a + b == a;
    } else {
      assert (a + b)[..|a + b| - 1] == a + b[..|b| - 1];
      InRangeSplits(a, b[..|b| - 1], from, to);
    }
  }

  predicate AllWithin(c: seq<Message>, from: Option<int>, to: Option<int>) {
    forall i :: 0 <= i < |c| ==> Within(c[i], from, to)
  }

  predicate NoneWithin(c: seq<Message>, from: Option<int>, to: Option<int>) {
    forall i :: 0 <= i < |c| ==> !Within(c[i], from, to)
  }

  lemma {:induction false} AllOfIt(c: seq<Message>, from: Option<int>, to: Option<int>)
    requires AllWithin(c, from, to)
    ensures InRange(c, from, to) == c
  {
    if c != [] {
      AllOfIt(c[..|c| - 1], from, to);
      assert c == c[..|c| - 1] + [c[|c| - 1]];
    }
  }

  lemma {:induction false} NoneOfIt(c: seq<Message>, from: Option<int>, to: Option<int>)
    requires NoneWithin(c, from, to)
    ensures InRange(c, from, to) == []
  {
    if c != [] {
      NoneOfIt(c[..|c| - 1], from, to);
    }
  }

  lemma MiddleStretch(a: seq<Message>, b: seq<Message>, c: seq<Message>, from: Option<int>, to: Option<int>)
    requires NoneWithin(a, from, to) && AllWithin(b, from, to) && NoneWithin(c, from, to)
    ensures InRange(a + b + c, from, to) == b
  {
    InRangeSplits(a + b, c, from, to);
    InRangeSplits(a, b, from, to);
    NoneOfIt(a, from, to);
    AllOfIt(b, from, to);
    NoneOfIt(c, from, to);
    assert [] + b + [] == b;
  }

  /** The range is exactly the stretch [k, e) of the chat. */
  predicate IsStretch(chat: seq<Message>, from: Option<int>, to: Option<int>, k: nat, e: nat) {
    && k <= e <= |chat|
    && forall i :: 0 <= i < |chat| ==> (Within(chat[i], from, to) <==> k <= i < e)
  }

  lemma RangeIsStretch(chat: seq<Message>, from: Option<int>, to: Option<int>, k: nat, e: nat)
    requires IsStretch(chat, from, to, k, e)
    ensures InRange(chat, from, to) == chat[k..e]
  {
    MiddleStretch(chat[..k], chat[k..e], chat[e..], from, to);
    assert chat[..k] + chat[k..e] + chat[e..] == chat;
  }

  /** A chunk's read is the newest `limit` messages of the closed range: nothing between
      is skipped, whatever the boundaries' fractions of a second. */
  lemma FetchIsNewestOfRange(chat: seq<Message>, from: Option<int>, to: Option<int>, limit: nat)
    requires History(chat)
    ensures InRange(Stream(chat, to, limit), from, to)
            == Newest(InRange(chat, from, to), limit)
  {
    var e := RangeStretch(chat, from, to);
    FetchCutsStretch(chat, from, to, limit, e);
  }

  lemma FetchCutsStretch(chat: seq<Message>, from: Option<int>, to: Option<int>, limit: nat, e: nat)
    requires IsStretch(chat, from, to, AfterRange(chat, to), e)
    ensures InRange(Stream(chat, to, limit), from, to)
            == Newest(InRange(chat, from, to), limit)
  {
    var k := AfterRange(chat, to);
    StreamIsSlice(chat, to, limit);
    CutStretch(chat, from, to, k, e, limit);
    NewestOfStretch(chat, from, to, k, e, limit);
  }

  lemma StreamIsSlice(chat: seq<Message>, to: Option<int>, limit: nat)
    ensures AfterRange(chat, to) <= |chat|
    ensures Stream(chat, to, limit) == chat[AfterRange(chat, to)..Min(AfterRange(chat, to) + limit, |chat|)]
  {}

  lemma NewestOfStretch(chat: seq<Message>, from: Option<int>, to: Option<int>, k: nat, e: nat, limit: nat)
    requires IsStretch(chat, from, to, k, e)
    ensures k <= e <= |chat| && Newest(InRange(chat, from, to), limit) == chat[k..Min(e, k + limit)]
  {
    RangeIsStretch(chat, from, to, k, e);
    TakeOfSlice(chat, k, e, limit);
  }

  lemma TakeOfSlice(chat: seq<Message>, k: nat, e: nat, limit: nat)
    requires k <= e <= |chat|
    ensures Newest(chat[k..e], limit) == chat[k..Min(e, k + limit)]
  {}

  /** Reading only part of the chat from the stretch's start cuts the stretch. */
  lemma CutStretch(chat: seq<Message>, from: Option<int>, to: Option<int>, k: nat, e: nat, limit: nat)
    requires IsStretch(chat, from, to, k, e)
    ensures InRange(chat[k..Min(k + limit, |chat|)], from, to) == chat[k..Min(e, k + limit)]
  {
    var top := Min(k + limit, |chat|);
    var stream, n := chat[k..top], Min(e, top) - k;
    assert IsStretch(stream, from, to, 0, n);
    RangeIsStretch(stream, from, to, 0, n);
    assert stream[0..n] == chat[k..Min(e, k + limit)];
  }

  /** The range is one stretch of the chat, from where the stream starts. */
  lemma RangeStretch(chat: seq<Message>, from: Option<int>, to: Option<int>) returns (e: nat)
    requires History(chat)
    ensures IsStretch(chat, from, to, AfterRange(chat, to), e)
  {
    e := Max(AfterRange(chat, to), if from.None? then |chat| else Leading(chat, from.value));
    forall i | 0 <= i < |chat|
      ensures to.Some? ==> (chat[i].date <= to.value <==> AfterRange(chat, to) <= i)
    {
      if to.Some? {
        WholeSecond(chat[i].date, to.value);
        LeadingIff(chat, OffsetDate(to.value), i);
      }
    }
    forall i | 0 <= i < |chat|
      ensures from.Some? ==> (chat[i].date >= from.value <==> i < Leading(chat, from.value))
    {
      if from.Some? {
        LeadingIff(chat, from.value, i);
      }
    }
  }

  lemma LeadingIff(chat: seq<Message>, t: int, i: nat)
    requires NewestFirst(chat) && i < |chat|
    ensures chat[i].date >= t <==> i < Leading(chat, t)
  {}

  lemma WholeSecond(date: int, to: int)
    requires date % SECOND == 0
    ensures date < OffsetDate(to) <==> date <= to
  {}

  /** One job reads its whole chunk exactly when the chunk holds at most `limit` messages. */
  lemma ChunkIsWholeIff(chat: seq<Message>, from: Option<int>, to: Option<int>, limit: nat)
    requires History(chat)
    ensures InRange(Stream(chat, to, limit), from, to) == InRange(chat, from, to)
            <==> |InRange(chat, from, to)| <= limit
  {
    FetchIsNewestOfRange(chat, from, to, limit);
  }

  // ---- Storing the chunks ---------------------------------------------------

  function EventsOf(messages: seq<Message>): (r: seq<Event>)
    ensures |r| == |messages|
    ensures forall i :: 0 <= i < |messages| ==>
              r[i] == Event(Some(PrintInt(messages[i].id)), Some(messages[i].date), messages[i].text)
  {
    seq(|messages|, i requires 0 <= i < |messages| =>
      Event(Some(PrintInt(messages[i].id)), Some(messages[i].date), messages[i].text))
  }

  /** One job's transaction. Jobs of one target may use different accounts and times. */
  datatype Run = Run(chunk: Range, ctx: Context)

  function RunChunk(s: Store, chat: seq<Message>, limit: nat, run: Run): Store {
    var stream := Stream(chat, Some(run.chunk.to), limit);
    InsertEach(s, run.ctx, EventsOf(InRange(stream, Some(run.chunk.from), Some(run.chunk.to))))
  }

  function RunAll(s: Store, chat: seq<Message>, limit: nat, runs: seq<Run>): Store {
    if runs == [] then s
    else RunChunk(RunAll(s, chat, limit, runs[..|runs| - 1]), chat, limit, runs[|runs| - 1])
  }

  predicate SameTarget(runs: seq<Run>, ctx: Context) {
    forall i :: 0 <= i < |runs| ==>
      runs[i].ctx.parser == ctx.parser && runs[i].ctx.target == ctx.target && runs[i].ctx.accountExists
  }

  /** Every chunk was run at least once, in whatever order, and nothing else was. */
  predicate CoversAll(runs: seq<Run>, ranges: seq<Range>) {
    && (forall i :: 0 <= i < |ranges| ==> exists k :: 0 <= k < |runs| && runs[k].chunk == ranges[i])
    && (forall k :: 0 <= k < |runs| ==> runs[k].chunk in ranges)
  }

  lemma {:induction false} InRangeMembers(chat: seq<Message>, from: Option<int>, to: Option<int>, m: Message)
    ensures m in InRange(chat, from, to) <==> m in chat && Within(m, from, to)
  {
    if chat != [] {
      InRangeMembers(chat[..|chat| - 1], from, to, m);
    }
  }

  lemma PresentForTarget(rows: seq<Row>, a: Context, b: Context, x: Option<string>)
    requires a.parser == b.parser && a.target == b.target
    ensures Present(rows, a, x) <==> Present(rows, b, x)
  {
    assert forall i :: 0 <= i < |rows| ==> (Blocks(rows[i], a, x) <==> Blocks(rows[i], b, x));
  }

  /** Some message of the chat dated in the range has this external id. */
  predicate Names(chat: seq<Message>, from: int, to: int, x: Option<string>) {
    exists i :: 0 <= i < |chat| && from <= chat[i].date <= to && x == Some(PrintInt(chat[i].id))
  }

  /** The ids a batch of the range's messages carries are the ids of the range. */
  lemma EventsNameRange(chat: seq<Message>, from: int, to: int, x: Option<string>)
    ensures var events := EventsOf(InRange(chat, Some(from), Some(to)));
            (exists k :: 0 <= k < |events| && events[k].externalId == x) <==> Names(chat, from, to, x)
  {
    var messages := InRange(chat, Some(from), Some(to));
    if Names(chat, from, to, x) {
      var i :| 0 <= i < |chat| && from <= chat[i].date <= to && x == Some(PrintInt(chat[i].id));
      InRangeMembers(chat, Some(from), Some(to), chat[i]);
      var k :| 0 <= k < |messages| && messages[k] == chat[i];
      assert EventsOf(messages)[k].externalId == x;
    }
    forall k | 0 <= k < |messages| && EventsOf(messages)[k].externalId == x
      ensures Names(chat, from, to, x)
    {
      InRangeMembers(chat, Some(from), Some(to), messages[k]);
      var i :| 0 <= i < |chat| && chat[i] == messages[k];
    }
  }

  /** What a chunk's job adds: the ids of its range, when it is not cut short. */
  lemma ChunkAdds(s: Store, chat: seq<Message>, limit: nat, run: Run, ctx: Context, x: Option<string>)
    requires History(chat) && SameTarget([run], ctx)
    requires |InRange(chat, Some(run.chunk.from), Some(run.chunk.to))| <= limit
    ensures Present(RunChunk(s, chat, limit, run).rows, ctx, x)
            <==> Present(s.rows, ctx, x) || Names(chat, run.chunk.from, run.chunk.to, x)
  {
    assert [run][0] == run;
    var events := EventsOf(InRange(chat, Some(run.chunk.from), Some(run.chunk.to)));
    ChunkIsWholeIff(chat, Some(run.chunk.from), Some(run.chunk.to), limit);
    EventsNameRange(chat, run.chunk.from, run.chunk.to, x);
    PresentAfterBatch(s, run.ctx, events, x);
    PresentForTarget(s.rows, run.ctx, ctx, x);
    PresentForTarget(RunChunk(s, chat, limit, run).rows, run.ctx, ctx, x);
  }

  predicate SomeNames(chat: seq<Message>, runs: seq<Run>, x: Option<string>) {
    exists k :: 0 <= k < |runs| && Names(chat, runs[k].chunk.from, runs[k].chunk.to, x)
  }

  lemma SomeNamesSplit(chat: seq<Message>, runs: seq<Run>, last: Run, x: Option<string>)
    ensures SomeNames(chat, runs + [last], x)
            <==> SomeNames(chat, runs, x) || Names(chat, last.chunk.from, last.chunk.to, x)
  {
    var all := runs + [last];
    assert forall k :: 0 <= k < |runs| ==> all[k] == runs[k];
    assert all[|runs|] == last;
  }

  lemma {:induction false} RunsAdd(s: Store, chat: seq<Message>, limit: nat, runs: seq<Run>, ctx: Context,
                                   x: Option<string>)
    requires History(chat) && SameTarget(runs, ctx)
    requires forall k :: 0 <= k < |runs| ==> |InRange(chat, Some(runs[k].chunk.from), Some(runs[k].chunk.to))| <= limit
    ensures Present(RunAll(s, chat, limit, runs).rows, ctx, x)
            <==> Present(s.rows, ctx, x) || SomeNames(chat, runs, x)
  {
    if runs != [] {
      var init, last := runs[..|runs| - 1], runs[|runs| - 1];
      assert forall k :: 0 <= k < |init| ==> init[k] == runs[k];
      assert runs == init + [last];
      SomeNamesSplit(chat, init, last, x);
      RunsAdd(s, chat, limit, init, ctx, x);
      ChunkAdds(RunAll(s, chat, limit, init), chat, limit, last, ctx, x);
    }
  }

  lemma {:induction false} RunsKeepIndex(s: Store, chat: seq<Message>, limit: nat, runs: seq<Run>)
    requires UniqueIndex(s.rows) && IdsBelow(s)
    ensures UniqueIndex(RunAll(s, chat, limit, runs).rows) && IdsBelow(RunAll(s, chat, limit, runs))
  {
    if runs != [] {
      RunsKeepIndex(s, chat, limit, runs[..|runs| - 1]);
      var last := runs[|runs| - 1];
      PersistKeepsIndex(RunAll(s, chat, limit, runs[..|runs| - 1]), last.ctx,
        EventsOf(InRange(Stream(chat, Some(last.chunk.to), limit), Some(last.chunk.from), Some(last.chunk.to))));
    }
  }

  /** Running the chunk jobs in any order, some of them more than once, stores the same
      ids as reading the whole range at once, and no id twice: the shared boundaries of
      neighbouring chunks do no harm. */
  lemma ChunksRefineOneRead(s: Store, chat: seq<Message>, config: BackfillConfig, limit: nat, runs: seq<Run>,
                            ctx: Context)
    requires History(chat) && UniqueIndex(s.rows) && IdsBelow(s)
    requires Splits(config) && ctx.accountExists && SameTarget(runs, ctx) && CoversAll(runs, Chunks(config))
    requires forall r :: r in Chunks(config) ==> |InRange(chat, Some(r.from), Some(r.to))| <= limit
    ensures var all := InsertEach(s, ctx, EventsOf(InRange(chat, config.from, config.to)));
            var after := RunAll(s, chat, limit, runs);
            && (forall x :: Present(after.rows, ctx, x) <==> Present(all.rows, ctx, x))
            && (forall i :: 0 <= i < |chat| && Within(chat[i], config.from, config.to) ==>
                  Present(after.rows, ctx, Some(PrintInt(chat[i].id))))
            && UniqueIndex(after.rows)
  {
    var start, end := config.from.value, config.to.value;
    var all := InsertEach(s, ctx, EventsOf(InRange(chat, config.from, config.to)));
    var after := RunAll(s, chat, limit, runs);
    forall x
      ensures Present(after.rows, ctx, x) <==> Present(s.rows, ctx, x) || Names(chat, start, end, x)
      ensures Present(all.rows, ctx, x) <==> Present(s.rows, ctx, x) || Names(chat, start, end, x)
    {
      ChunkNamesAreRangeNames(chat, config, runs, x);
      RunsAdd(s, chat, limit, runs, ctx, x);
      var whole := Run(Range(start, end), ctx);
      ChunkAdds(s, chat, |InRange(chat, config.from, config.to)|, whole, ctx, x);
      ChunkIsWholeIff(chat, config.from, config.to, |InRange(chat, config.from, config.to)|);
    }
    RunsKeepIndex(s, chat, limit, runs);
  }

  /** An id is of the range exactly when it is of one of the chunks. */
  lemma ChunkNamesAreRangeNames(chat: seq<Message>, config: BackfillConfig, runs: seq<Run>, x: Option<string>)
    requires Splits(config) && CoversAll(runs, Chunks(config))
    ensures SomeNames(chat, runs, x) <==> Names(chat, config.from.value, config.to.value, x)
  {
    var start, end, ranges := config.from.value, config.to.value, Chunks(config);
    ChunksTile(start, end, Step(config));
    if Names(chat, start, end, x) {
      var i :| 0 <= i < |chat| && start <= chat[i].date <= end && x == Some(PrintInt(chat[i].id));
      var c := ChunkOf(ranges, start, end, Step(config), chat[i].date);
      var k :| 0 <= k < |runs| && runs[k].chunk == ranges[c];
      assert Names(chat, runs[k].chunk.from, runs[k].chunk.to, x);
    }
    forall k | 0 <= k < |runs|
      ensures Names(chat, runs[k].chunk.from, runs[k].chunk.to, x) ==> Names(chat, start, end, x)
    {
      var c :| 0 <= c < |ranges| && ranges[c] == runs[k].chunk;
      ChunksInside(ranges, start, end, Step(config), c);
      NamesWidens(chat, runs[k].chunk, start, end, x);
    }
  }

  lemma NamesWidens(chat: seq<Message>, chunk: Range, start: int, end: int, x: Option<string>)
    requires start <= chunk.from && chunk.to <= end
    ensures Names(chat, chunk.from, chunk.to, x) ==> Names(chat, start, end, x)
  {}

  // ---- The settings in plain words ------------------------------------------

  /** Whatever blanks surround it and in whatever case: only "full" is the full mode, and
      any other text means a date range, the empty one included. */
  lemma ModeOf(a: string, w: string, b: string)
    requires Identifiers.Blank(a) && Identifiers.Blank(b)
    requires w == "" || (!Identifiers.Blank([w[0]]) && !Identifiers.Blank([w[|w| - 1]]))
    ensures Mode(a + w + b) == if Identifiers.SameButCase(w, "full") then "full" else "range"
  {
    Identifiers.StripOf(a, w, b);
    Identifiers.LowerIffSame(w, "full");
    Identifiers.LowerIffSame(w, "range");
    if a + w + b == "" {
      Identifiers.SolidIsStripped("range");
      Identifiers.LowerIffSame("range", "range");
    }
  }

  /** A date range is cut when the backfill is on, not in the full mode, and both dates are
      given in order; into pieces of the days asked for, one at least. Else not at all. */
  lemma ChunksOf(config: BackfillConfig)
    ensures if config.enabled && Mode(config.mode) != "full" && config.from.Some? && config.to.Some?
               && config.from.value < config.to.value
            then Tiles(Chunks(config), config.from.value, config.to.value,
                       (if config.chunkDays >= 1 then config.chunkDays else 1) * 24 * 3600 * 1_000_000)
            else Chunks(config) == []
  {
    var days := if config.chunkDays >= 1 then config.chunkDays else 1;
    assert Step(config) == days * 24 * 3600 * 1_000_000;
    if Splits(config) {
      ChunksTile(config.from.value, config.to.value, Step(config));
    }
  }
}
