/** Writing parsed events: batched deduplication against a unique index, and the
    worker's loop that tells which events of a batch were new. */
module EventSink {
  import opened Common

  datatype Event = Event(externalId: Option<string>, observedAt: Option<int>, content: string)
  {
    /** Python truth of the external id: neither null nor empty. */
    predicate Identified() { externalId.Some? && externalId.value != "" }
  }

  datatype Row = Row(id: int, parser: string, target: int, account: Option<int>, owner: Option<int>,
                     externalId: Option<string>, observedAt: Option<int>, createdAt: int, content: string)

  /** What is the same for a whole batch; accountExists says whether the account id
      satisfies its foreign key. */
  datatype Context = Context(parser: string, target: int, account: Option<int>, owner: Option<int>, accountExists: bool,
                             now: int)

  datatype Store = Store(rows: seq<Row>, nextId: int)

  /** A stored row blocks an external id for its parser and target. */
  predicate Blocks(row: Row, ctx: Context, externalId: Option<string>) {
    externalId.Some? && row.parser == ctx.parser && row.target == ctx.target && row.externalId == externalId
  }

  predicate Present(rows: seq<Row>, ctx: Context, externalId: Option<string>) {
    exists i :: 0 <= i < |rows| && Blocks(rows[i], ctx, externalId)
  }

  predicate UniqueIndex(rows: seq<Row>) {
    forall i, j :: 0 <= i < j < |rows| && rows[i].externalId.Some? ==>
      !(&& rows[i].parser == rows[j].parser && rows[i].target == rows[j].target
        && rows[i].externalId == rows[j].externalId)
  }

  predicate IdsBelow(s: Store) {
    && (forall i :: 0 <= i < |s.rows| ==> s.rows[i].id < s.nextId)
    && (forall i, j :: 0 <= i < j < |s.rows| ==> s.rows[i].id < s.rows[j].id)
  }

  function NewRow(ctx: Context, id: int, e: Event): Row {
    Row(id, ctx.parser, ctx.target, ctx.account, ctx.owner, e.externalId, e.observedAt, ctx.now, e.content)
  }

  // ---- One event at a time --------------------------------------------------

  /** What the database accepts. */
  predicate Accepts(s: Store, ctx: Context, e: Event) {
    ctx.accountExists && !Present(s.rows, ctx, e.externalId)
  }

  function InsertIfAbsent(s: Store, ctx: Context, e: Event): Store {
    if Accepts(s, ctx, e) then Store(s.rows + [NewRow(ctx, s.nextId, e)], s.nextId + 1) else s
  }

  function InsertEach(s: Store, ctx: Context, events: seq<Event>): Store {
    if events == [] then s
    else InsertIfAbsent(InsertEach(s, ctx, events[..|events| - 1]), ctx, events[|events| - 1])
  }

  /** Event i is new: no stored row and no earlier event of the batch has its id. */
  predicate IsNew(rows: seq<Row>, ctx: Context, events: seq<Event>, i: nat)
    requires i < |events|
  {
    && ctx.accountExists
    && !Present(rows, ctx, events[i].externalId)
    && (events[i].externalId.Some? ==> forall k :: 0 <= k < i ==> events[k].externalId != events[i].externalId)
  }

  function NewOnes(rows: seq<Row>, ctx: Context, events: seq<Event>): seq<Event> {
    if events == [] then []
    else
      var before := NewOnes(rows, ctx, events[..|events| - 1]);
      if IsNew(rows, ctx, events, |events| - 1) then before + [events[|events| - 1]] else before
  }

  function RowsFor(ctx: Context, id: int, events: seq<Event>): (r: seq<Row>)
    ensures |r| == |events|
    ensures forall i :: 0 <= i < |events| ==> r[i] == NewRow(ctx, id + i, events[i])
  {
    if events == [] then []
    else RowsFor(ctx, id, events[..|events| - 1]) + [NewRow(ctx, id + |events| - 1, events[|events| - 1])]
  }

  // ---- The batch ------------------------------------------------------------

  class Sink {
    var rows: seq<Row>
    var nextId: int

    function Contents(): Store
      reads this
    {
      Store(rows, nextId)
    }

    constructor ()
      ensures Contents() == Store([], 1)
    {
      rows, nextId := [], 1;
    }

    /** The insert inside its savepoint; a rejected one changes nothing. */
    method TryInsert(ctx: Context, e: Event) returns (written: Option<Row>)
      modifies this
      ensures Contents() == InsertIfAbsent(old(Contents()), ctx, e)
      ensures written == if Accepts(old(Contents()), ctx, e) then Some(NewRow(ctx, old(nextId), e)) else None
    {
      if ctx.accountExists && !Present(rows, ctx, e.externalId) {
        var row := NewRow(ctx, nextId, e);
        rows := rows + [row];
        nextId := nextId + 1;
        return Some(row);
      }
      return None;
    }

    /** One event of a batch: skipped if its id is known, else inserted if the index
        lets it in, and then known. */
    method PersistOne(ctx: Context, e: Event, known: set<string>) returns (written: Option<Row>, known': set<string>)
      requires forall k :: k in known ==> Present(rows, ctx, Some(k))
      modifies this
      ensures Contents() == InsertIfAbsent(old(Contents()), ctx, e)
      ensures written == if Accepts(old(Contents()), ctx, e) then Some(NewRow(ctx, old(nextId), e)) else None
      ensures forall k :: k in known' ==> Present(rows, ctx, Some(k))
    {
      if e.Identified() && e.externalId.value in known {
        return None, known;
      }
      ghost var before := rows;
      written := TryInsert(ctx, e);
      known' := known;
      if written.Some? {
        GrowthKeepsPresent(before, ctx, written.value);
        if e.Identified() {
          assert Blocks(rows[|rows| - 1], ctx, e.externalId);
          known' := known + {e.externalId.value};
        }
      }
    }

    /** Writes a batch. The pre-check reads `snapshot`, an earlier state of the table
        that other writers may have added to since. */
    method PersistEvents(ctx: Context, events: seq<Event>, snapshot: seq<Row>) returns (written: seq<Row>)
      requires snapshot <= rows
      modifies this
      ensures Contents() == InsertEach(old(Contents()), ctx, events)
      ensures rows == old(rows) + written
      ensures written == RowsFor(ctx, old(nextId), NewOnes(old(rows), ctx, events))
    {
      written := [];
      if events == [] {
        return;
      }
      var known := Known(snapshot, ctx, events);
      KnownIsPresent(snapshot, rows, ctx, events);
      ghost var was := Contents();
      assert events[..0] == [];
      for i := 0 to |events|
        invariant Contents() == InsertEach(was, ctx, events[..i])
        invariant rows == was.rows + written
        invariant forall k :: k in known ==> Present(rows, ctx, Some(k))
      {
        assert events[..i + 1][..i] == events[..i];
        var row;
        row, known := PersistOne(ctx, events[i], known);
        if row.Some? {
          written := written + [row.value];
        }
      }
      assert events[..|events|] == events;
      InsertEachAppendsNewOnes(was, ctx, events);
      assert rows[|was.rows|..] == written;
    }
  }

  /** The ids the pre-check finds. */
  function Known(snapshot: seq<Row>, ctx: Context, events: seq<Event>): set<string> {
    set i | 0 <= i < |events| && events[i].Identified() && Present(snapshot, ctx, events[i].externalId)
      :: events[i].externalId.value
  }

  lemma KnownIsPresent(snapshot: seq<Row>, rows: seq<Row>, ctx: Context, events: seq<Event>)
    requires snapshot <= rows
    ensures forall k :: k in Known(snapshot, ctx, events) ==> Present(rows, ctx, Some(k))
  {
    forall k | k in Known(snapshot, ctx, events)
      ensures Present(rows, ctx, Some(k))
    {
      var i :| 0 <= i < |snapshot| && Blocks(snapshot[i], ctx, Some(k));
      assert Blocks(rows[i], ctx, Some(k));
    }
  }

  lemma GrowthKeepsPresent(rows: seq<Row>, ctx: Context, row: Row)
    ensures forall x :: Present(rows, ctx, x) ==> Present(rows + [row], ctx, x)
  {
    forall x | Present(rows, ctx, x)
      ensures Present(rows + [row], ctx, x)
    {
      var i :| 0 <= i < |rows| && Blocks(rows[i], ctx, x);
      assert Blocks((rows + [row])[i], ctx, x);
    }
  }

  /** The ids present after a batch: those before it and the batch's own. */
  lemma {:induction false} PresentAfterBatch(s: Store, ctx: Context, events: seq<Event>, x: Option<string>)
    ensures x.Some? && ctx.accountExists ==>
              (Present(InsertEach(s, ctx, events).rows, ctx, x) <==>
                 Present(s.rows, ctx, x) || exists k :: 0 <= k < |events| && events[k].externalId == x)
    ensures x.None? ==> !Present(InsertEach(s, ctx, events).rows, ctx, x)
  {
    if events != [] && x.Some? && ctx.accountExists {
      var init, e := events[..|events| - 1], events[|events| - 1];
      PresentAfterBatch(s, ctx, init, x);
      PresentAfterInsert(InsertEach(s, ctx, init), ctx, e, x);
      assert events == init + [e];
      assert (exists k :: 0 <= k < |events| && events[k].externalId == x) <==>
             (exists k :: 0 <= k < |init| && init[k].externalId == x) || e.externalId == x by {
        assert forall k :: 0 <= k < |init| ==> init[k] == events[k];
        assert events[|init|] == e;
      }
    }
  }

  lemma LastIsNewIffAccepted(s: Store, ctx: Context, events: seq<Event>)
    requires events != []
    ensures IsNew(s.rows, ctx, events, |events| - 1) <==>
              Accepts(InsertEach(s, ctx, events[..|events| - 1]), ctx, events[|events| - 1])
  {
    var init, x := events[..|events| - 1], events[|events| - 1].externalId;
    PresentAfterBatch(s, ctx, init, x);
    assert forall k :: 0 <= k < |init| ==> init[k] == events[k];
  }

  /** One at a time, the store afterwards is the old one and a row per new event. */
  lemma {:induction false} InsertEachAppendsNewOnes(s: Store, ctx: Context, events: seq<Event>)
    ensures var added := RowsFor(ctx, s.nextId, NewOnes(s.rows, ctx, events));
            InsertEach(s, ctx, events) == Store(s.rows + added, s.nextId + |added|)
  {
    if events != [] {
      var init := events[..|events| - 1];
      InsertEachAppendsNewOnes(s, ctx, init);
      LastIsNewIffAccepted(s, ctx, events);
      var before := NewOnes(s.rows, ctx, init);
      assert (before + [events[|events| - 1]])[..|before|] == before;
    }
  }

  lemma NewOnesPrefix(rows: seq<Row>, ctx: Context, events: seq<Event>)
    requires events != []
    ensures NewOnes(rows, ctx, events) ==
              NewOnes(rows, ctx, events[..|events| - 1])
              + if IsNew(rows, ctx, events, |events| - 1) then [events[|events| - 1]] else []
  {}

  lemma PresentAfterInsert(s: Store, ctx: Context, e: Event, x: Option<string>)
    requires x.Some? && ctx.accountExists
    ensures Present(InsertIfAbsent(s, ctx, e).rows, ctx, x) <==> Present(s.rows, ctx, x) || e.externalId == x
  {
    var after := InsertIfAbsent(s, ctx, e).rows;
    if Present(s.rows, ctx, x) {
      var i :| 0 <= i < |s.rows| && Blocks(s.rows[i], ctx, x);
      assert Blocks(after[i], ctx, x);
    }
    if e.externalId == x && Accepts(s, ctx, e) {
      assert Blocks(after[|after| - 1], ctx, x);
    }
  }

  // ---- Laws of the batch ----------------------------------------------------

  /** Persisting a batch is persisting its parts one after the other. */
  lemma {:induction false} PersistSplits(s: Store, ctx: Context, a: seq<Event>, b: seq<Event>)
    ensures InsertEach(s, ctx, a + b) == InsertEach(InsertEach(s, ctx, a), ctx, b)
  {
    if b == [] {
      assert a + b == a;
    } else {
      var init := b[..|b| - 1];
      assert (a + b)[..|a + b| - 1] == a + init;
      PersistSplits(s, ctx, a, init);
    }
  }

  /** The unique index holds after every batch. */
  lemma {:induction false} PersistKeepsIndex(s: Store, ctx: Context, events: seq<Event>)
    requires UniqueIndex(s.rows) && IdsBelow(s)
    ensures UniqueIndex(InsertEach(s, ctx, events).rows) && IdsBelow(InsertEach(s, ctx, events))
  {
    if events != [] {
      var init, e := events[..|events| - 1], events[|events| - 1];
      var s0 := InsertEach(s, ctx, init);
      PersistKeepsIndex(s, ctx, init);
      if Accepts(s0, ctx, e) {
        forall i | 0 <= i < |s0.rows|
          ensures !Blocks(s0.rows[i], ctx, e.externalId)
        {
        }
      }
    }
  }

  /** Repeating a batch writes again exactly the events without an id. */
  lemma {:induction false} RepeatWritesOnlyUnnamed(s: Store, ctx: Context, events: seq<Event>)
    ensures NewOnes(InsertEach(s, ctx, events).rows, ctx, events)
            == if ctx.accountExists then Unnamed(events) else []
  {
    forall k | 0 <= k < |events|
      ensures events[k].externalId.Some? && ctx.accountExists ==>
                Present(InsertEach(s, ctx, events).rows, ctx, events[k].externalId)
      ensures events[k].externalId.None? ==> !Present(InsertEach(s, ctx, events).rows, ctx, events[k].externalId)
    {
      PresentAfterBatch(s, ctx, events, events[k].externalId);
    }
    OnlyUnnamedAreNew(InsertEach(s, ctx, events).rows, ctx, events);
  }

  function Unnamed(events: seq<Event>): seq<Event> {
    if events == [] then []
    else Unnamed(events[..|events| - 1]) + if events[|events| - 1].externalId.None? then [events[|events| - 1]] else []
  }

  lemma {:induction false} OnlyUnnamedAreNew(rows: seq<Row>, ctx: Context, events: seq<Event>)
    requires forall k :: 0 <= k < |events| && events[k].externalId.Some? && ctx.accountExists ==>
               Present(rows, ctx, events[k].externalId)
    requires forall k :: 0 <= k < |events| && events[k].externalId.None? ==> !Present(rows, ctx, events[k].externalId)
    ensures NewOnes(rows, ctx, events) == if ctx.accountExists then Unnamed(events) else []
  {
    if events != [] {
      var init := events[..|events| - 1];
      assert forall k :: 0 <= k < |init| ==> init[k] == events[k];
      OnlyUnnamedAreNew(rows, ctx, init);
      NewOnesPrefix(rows, ctx, events);
    }
  }

  /** So a batch in which every event has an id writes nothing the second time. */
  lemma RepeatOfNamedBatchWritesNothing(s: Store, ctx: Context, events: seq<Event>)
    requires forall k :: 0 <= k < |events| ==> events[k].externalId.Some?
    ensures InsertEach(InsertEach(s, ctx, events), ctx, events) == InsertEach(s, ctx, events)
  {
    var once := InsertEach(s, ctx, events);
    RepeatWritesOnlyUnnamed(s, ctx, events);
    NamedHasNoUnnamed(events);
    InsertEachAppendsNewOnes(once, ctx, events);
  }

  lemma {:induction false} NamedHasNoUnnamed(events: seq<Event>)
    requires forall k :: 0 <= k < |events| ==> events[k].externalId.Some?
    ensures Unnamed(events) == []
  {
    if events != [] {
      NamedHasNoUnnamed(events[..|events| - 1]);
    }
  }

  // ---- The worker's loop over the written rows ------------------------------

  function NamesOf(rows: seq<Row>): set<string> {
    set i | 0 <= i < |rows| && rows[i].externalId.Some? && rows[i].externalId.value != "" :: rows[i].externalId.value
  }

  /** Which events of the batch the worker treats as new. */
  method FlagNew(events: seq<Event>, written: seq<Row>) returns (flags: seq<bool>)
    ensures |flags| == |events|
    ensures forall i :: 0 <= i < |events| ==>
              flags[i] == (events[i].Identified() ==>
                             events[i].externalId.value in NamesOf(written)
                             && forall k :: 0 <= k < i ==> events[k].externalId != events[i].externalId)
  {
    var newlyWritten := NamesOf(written);
    flags := [];
    for i := 0 to |events|
      invariant |flags| == i
      invariant forall x :: x in newlyWritten <==>
                  x in NamesOf(written) && forall k :: 0 <= k < i ==> events[k].externalId != Some(x)
      invariant forall j :: 0 <= j < i ==>
                  flags[j] == (events[j].Identified() ==>
                                 events[j].externalId.value in NamesOf(written)
                                 && forall k :: 0 <= k < j ==> events[k].externalId != events[j].externalId)
    {
      var e := events[i];
      ghost var before := newlyWritten;
      if e.Identified() {
        flags := flags + [e.externalId.value in newlyWritten];
        newlyWritten := newlyWritten - {e.externalId.value};
      } else {
        flags := flags + [true];
      }
      assert "" !in NamesOf(written);
    }
  }

  /** The names written by a batch are those of its new events. */
  lemma WrittenNames(rows: seq<Row>, ctx: Context, events: seq<Event>, id: int, i: nat)
    requires i < |events| && events[i].Identified()
    requires forall k :: 0 <= k < i ==> events[k].externalId != events[i].externalId
    ensures events[i].externalId.value in NamesOf(RowsFor(ctx, id, NewOnes(rows, ctx, events)))
            <==> IsNew(rows, ctx, events, i)
  {
    var added := NewOnes(rows, ctx, events);
    var written := RowsFor(ctx, id, added);
    if IsNew(rows, ctx, events, i) {
      NewIsListed(rows, ctx, events, i);
      var p :| 0 <= p < |added| && added[p] == events[i];
      assert written[p].externalId == events[i].externalId;
    }
    if events[i].externalId.value in NamesOf(written) {
      var p :| 0 <= p < |written| && written[p].externalId == events[i].externalId;
      var k := ListedIsNew(rows, ctx, events, p);
      assert k < i ==> events[k].externalId != events[i].externalId;
    }
  }

  lemma {:induction false} NewIsListed(rows: seq<Row>, ctx: Context, events: seq<Event>, i: nat)
    requires i < |events| && IsNew(rows, ctx, events, i)
    ensures events[i] in NewOnes(rows, ctx, events)
  {
    NewOnesPrefix(rows, ctx, events);
    var init := events[..|events| - 1];
    if i < |init| {
      assert forall k :: 0 <= k < |init| ==> init[k] == events[k];
      NewIsListed(rows, ctx, init, i);
    }
  }

  lemma {:induction false} ListedIsNew(rows: seq<Row>, ctx: Context, events: seq<Event>, p: nat) returns (i: nat)
    requires p < |NewOnes(rows, ctx, events)|
    ensures i < |events| && IsNew(rows, ctx, events, i) && NewOnes(rows, ctx, events)[p] == events[i]
  {
    NewOnesPrefix(rows, ctx, events);
    var init := events[..|events| - 1];
    if p < |NewOnes(rows, ctx, init)| {
      i := ListedIsNew(rows, ctx, init, p);
      assert forall k :: 0 <= k < |init| ==> init[k] == events[k];
    } else {
      i := |events| - 1;
    }
  }

  /** Persist, then flag: the flags are exactly the events that were written, once per
      written row, if and only if every event with a null or empty id was written. */
  method PersistAndFlag(sink: Sink, ctx: Context, events: seq<Event>, snapshot: seq<Row>) returns (flags: seq<bool>)
    requires snapshot <= sink.rows
    modifies sink
    ensures sink.Contents() == InsertEach(old(sink.Contents()), ctx, events)
    ensures |flags| == |events|
    ensures forall i :: 0 <= i < |events| && events[i].Identified() ==>
              flags[i] == IsNew(old(sink.rows), ctx, events, i)
    ensures (forall i :: 0 <= i < |events| ==> flags[i] == IsNew(old(sink.rows), ctx, events, i)) <==>
            (forall i :: 0 <= i < |events| && !events[i].Identified() ==> IsNew(old(sink.rows), ctx, events, i))
  {
    ghost var rows, id := sink.rows, sink.nextId;
    var written := sink.PersistEvents(ctx, events, snapshot);
    flags := FlagNew(events, written);
    forall i | 0 <= i < |events| && events[i].Identified()
      ensures flags[i] == IsNew(rows, ctx, events, i)
    {
      if forall k :: 0 <= k < i ==> events[k].externalId != events[i].externalId {
        WrittenNames(rows, ctx, events, id, i);
      }
    }
  }

  // ---- What a stored event says ---------------------------------------------

  /** The rows a batch adds carry the batch's parser, target, account, owner and time, and
      each the id, observation time and text of its event. */
  lemma WrittenRowsSay(s: Store, ctx: Context, events: seq<Event>, i: nat)
    requires IdsBelow(s) && i < |NewOnes(s.rows, ctx, events)|
    ensures var e, rows := NewOnes(s.rows, ctx, events)[i], InsertEach(s, ctx, events).rows;
            && |s.rows| + i < |rows|
            && var row := rows[|s.rows| + i];
               && row.id == s.nextId + i
               && row.parser == ctx.parser && row.target == ctx.target
               && row.account == ctx.account && row.owner == ctx.owner && row.createdAt == ctx.now
               && row.externalId == e.externalId && row.observedAt == e.observedAt && row.content == e.content
  {
    InsertEachAppendsNewOnes(s, ctx, events);
  }
}
