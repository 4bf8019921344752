/** The analytics mirror: one row per (parser, target, event key), last insert wins,
    and the backfill that makes it agree with the event table. */
module Mirror {
  import opened Common
  import opened EventSink

  // ---- Event keys -----------------------------------------------------------

  function HexDigit(n: nat): char
    requires n < 16
  {
    if n < 10 then '0' + n as char else 'a' + (n - 10) as char
  }

  /** Hexadecimal, zero-padded to at least `width` digits. */
  function PadHex(n: nat, width: nat): string
    decreases n, width
  {
    if n == 0 && width == 0 then "" else PadHex(n / 16, if width == 0 then 0 else width - 1) + [HexDigit(n % 16)]
  }

  lemma {:induction false} PadHexInjective(a: nat, b: nat, v: nat, w: nat)
    requires PadHex(a, v) == PadHex(b, w)
    ensures a == b
    decreases a, v
  {
    if (a > 0 || v > 0) && (b > 0 || w > 0) {
      var x, y := PadHex(a / 16, if v == 0 then 0 else v - 1), PadHex(b / 16, if w == 0 then 0 else w - 1);
      var s := PadHex(a, v);
      assert s == x + [HexDigit(a % 16)] && s == y + [HexDigit(b % 16)];
      assert s[..|s| - 1] == x && s[..|s| - 1] == y;
      assert s[|s| - 1] == HexDigit(a % 16) && s[|s| - 1] == HexDigit(b % 16);
      PadHexInjective(a / 16, b / 16, if v == 0 then 0 else v - 1, if w == 0 then 0 else w - 1);
    }
  }

  function RowKey(id: nat): string {
    "pg" + PadHex(id, 28)
  }

  datatype Key = Key(parser: string, target: int, eventKey: string)

  datatype Image = Image(key: Key, account: Option<int>, owner: Option<int>, externalId: string, observedAt: int,
                         content: string)

  function ExternalText(r: Row): string {
    if r.externalId.Some? then r.externalId.value else ""
  }

  function KeyOf(r: Row): Key
    requires r.id >= 0
  {
    Key(r.parser, r.target, if ExternalText(r) != "" then ExternalText(r) else RowKey(r.id))
  }

  function ImageOf(r: Row): Image
    requires r.id >= 0
  {
    Image(KeyOf(r), r.account, r.owner, ExternalText(r),
          if r.observedAt.Some? then r.observedAt.value else r.createdAt, r.content)
  }

  predicate Positive(rows: seq<Row>) {
    forall i :: 0 <= i < |rows| ==> rows[i].id >= 1
  }

  function Images(rows: seq<Row>): seq<Image>
    requires Positive(rows)
  {
    if rows == [] then [] else Images(rows[..|rows| - 1]) + [ImageOf(rows[|rows| - 1])]
  }

  lemma {:induction false} ImageAt(rows: seq<Row>, i: nat)
    requires Positive(rows) && i < |rows|
    ensures |Images(rows)| == |rows| && Images(rows)[i] == ImageOf(rows[i])
  {
    if |rows| > 1 {
      ImageAt(rows[..|rows| - 1], if i < |rows| - 1 then i else 0);
    }
  }

  lemma ImagesAre(rows: seq<Row>)
    requires Positive(rows)
    ensures |Images(rows)| == |rows|
    ensures forall i :: 0 <= i < |rows| ==> Images(rows)[i] == ImageOf(rows[i])
  {
    forall i | 0 <= i < |rows|
      ensures |Images(rows)| == |rows| && Images(rows)[i] == ImageOf(rows[i])
    {
      ImageAt(rows, i);
    }
  }

  lemma {:induction false} ImagesOfBoth(a: seq<Row>, b: seq<Row>)
    requires Positive(a) && Positive(b)
    ensures Images(a + b) == Images(a) + Images(b)
  {
    if b == [] {
      assert a + b == a;
    } else {
      assert (a + b)[..|a + b| - 1] == a + b[..|b| - 1];
      ImagesOfBoth(a, b[..|b| - 1]);
    }
  }

  predicate ById(rows: seq<Row>) {
    forall i, j :: 0 <= i < j < |rows| ==> rows[i].id < rows[j].id
  }

  predicate DistinctKeys(rows: seq<Row>)
    requires Positive(rows)
  {
    forall i, j :: 0 <= i < j < |rows| ==> KeyOf(rows[i]) != KeyOf(rows[j])
  }

  /** An external id that looks like the key of an unnamed row of the same target. */
  predicate Impersonates(named: Row, unnamed: Row)
    requires unnamed.id >= 0
  {
    && named.parser == unnamed.parser && named.target == unnamed.target
    && ExternalText(unnamed) == "" && ExternalText(named) != "" && ExternalText(named) == RowKey(unnamed.id)
  }

  predicate NobodyImpersonates(rows: seq<Row>)
    requires Positive(rows)
  {
    forall i, j :: 0 <= i < |rows| && 0 <= j < |rows| ==> !Impersonates(rows[i], rows[j])
  }

  lemma ImpersonatorSharesKey(named: Row, unnamed: Row)
    requires named.id >= 0 && unnamed.id >= 0
    ensures Impersonates(named, unnamed) ==> KeyOf(named) == KeyOf(unnamed) && named != unnamed
  {}

  /** Exactly when distinct events have distinct keys. */
  lemma KeysDistinctIff(rows: seq<Row>)
    requires Positive(rows) && ById(rows) && UniqueIndex(rows)
    ensures DistinctKeys(rows) <==> NobodyImpersonates(rows)
  {
    if NobodyImpersonates(rows) {
      forall i, j | 0 <= i < j < |rows|
        ensures KeyOf(rows[i]) != KeyOf(rows[j])
      {
        assert !Impersonates(rows[i], rows[j]) && !Impersonates(rows[j], rows[i]);
        if RowKey(rows[i].id) == RowKey(rows[j].id) {
          assert RowKey(rows[i].id)[2..] == PadHex(rows[i].id, 28);
          assert RowKey(rows[j].id)[2..] == PadHex(rows[j].id, 28);
          PadHexInjective(rows[i].id, rows[j].id, 28, 28);
        }
      }
    }
    if DistinctKeys(rows) {
      forall i, j | 0 <= i < |rows| && 0 <= j < |rows|
        ensures !Impersonates(rows[i], rows[j])
      {
        ImpersonatorSharesKey(rows[i], rows[j]);
      }
    }
  }

  // ---- The table ------------------------------------------------------------

  type Table = map<Key, Image>

  /** Rows put in one after the other; a later one replaces an earlier one with its key. */
  function PutAll(table: Table, order: seq<Image>): Table {
    if order == [] then table
    else
      var last := order[|order| - 1];
      PutAll(table, order[..|order| - 1])[last.key := last]
  }

  /** The images were put in, in some order, some of them perhaps more than once. */
  ghost predicate Covers(before: Table, after: Table, images: set<Image>) {
    exists order :: SetOf(order) == images && after == PutAll(before, order)
  }

  lemma {:induction false} PutAllSplits(table: Table, a: seq<Image>, b: seq<Image>)
    ensures PutAll(table, a + b) == PutAll(PutAll(table, a), b)
  {
    if b == [] {
      assert a + b == a;
    } else {
      assert (a + b)[..|a + b| - 1] == a + b[..|b| - 1];
      PutAllSplits(table, a, b[..|b| - 1]);
    }
  }

  lemma PutAllCovers(table: Table, order: seq<Image>)
    ensures Covers(table, PutAll(table, order), SetOf(order))
  {}

  predicate HasKey(images: set<Image>, k: Key) {
    exists x :: x in images && x.key == k
  }

  lemma {:induction false} PutAllMeans(table: Table, order: seq<Image>, k: Key)
    ensures var after := PutAll(table, order);
            if HasKey(SetOf(order), k) then k in after && after[k] in SetOf(order) && after[k].key == k
            else (k in after <==> k in table) && (k in after ==> after[k] == table[k])
  {
    if order != [] {
      var init, last := order[..|order| - 1], order[|order| - 1];
      PutAllMeans(table, init, k);
      assert order == init + [last];
      assert SetOf(order) == SetOf(init) + {last};
      assert HasKey(SetOf(order), k) <==> HasKey(SetOf(init), k) || last.key == k by {
        if last.key == k {
          assert last in SetOf(order);
        }
      }
    }
  }

  /** Each key of the images holds one of them, every other key is as before. */
  lemma CoversMeans(before: Table, after: Table, images: set<Image>, k: Key)
    requires Covers(before, after, images)
    ensures if HasKey(images, k) then k in after && after[k] in images && after[k].key == k
            else (k in after <==> k in before) && (k in after ==> after[k] == before[k])
  {
    var order :| SetOf(order) == images && after == PutAll(before, order);
    PutAllMeans(before, order, k);
  }

  function SetOf(images: seq<Image>): set<Image> {
    set i | i in images
  }

  /** Rows of one month, in order. */
  function OfMonth(images: seq<Image>, monthOf: int -> int, m: int): seq<Image> {
    if images == [] then []
    else
      var before := OfMonth(images[..|images| - 1], monthOf, m);
      var last := images[|images| - 1];
      if monthOf(last.observedAt) == m then before + [last] else before
  }

  lemma {:induction false} OfMonthMembers(images: seq<Image>, monthOf: int -> int, m: int, x: Image)
    ensures x in OfMonth(images, monthOf, m) <==> x in images && monthOf(x.observedAt) == m
  {
    if images != [] {
      var init := images[..|images| - 1];
      OfMonthMembers(init, monthOf, m, x);
      assert images == init + [images[|images| - 1]];
    }
  }

  /** Splits a batch by the partition its rows fall into. */
  method GroupByMonth(images: seq<Image>, monthOf: int -> int) returns (groups: map<int, seq<Image>>)
    ensures groups.Keys == Months(images, monthOf)
    ensures forall m :: m in groups ==> groups[m] == OfMonth(images, monthOf, m) && groups[m] != []
  {
    groups := map[];
    assert images[..0] == [];
    for i := 0 to |images|
      invariant groups.Keys == set x | x in images[..i] :: monthOf(x.observedAt)
      invariant forall m :: m in groups ==> groups[m] == OfMonth(images[..i], monthOf, m) && groups[m] != []
      invariant forall m :: m !in groups ==> OfMonth(images[..i], monthOf, m) == []
    {
      var x := images[i];
      var m := monthOf(x.observedAt);
      assert images[..i + 1][..i] == images[..i];
      assert images[..i + 1] == images[..i] + [x];
      groups := groups[m := (if m in groups then groups[m] else []) + [x]];
    }
    assert images[..|images|] == images;
  }

  // ---- The order of the inserts ---------------------------------------------

  function Months(images: seq<Image>, monthOf: int -> int): set<int> {
    set x | x in images :: monthOf(x.observedAt)
  }

  predicate IsLeast(s: set<int>, m: int) {
    m in s && forall x :: x in s ==> m <= x
  }

  lemma {:induction false} LeastExists(s: set<int>) returns (m: int)
    requires s != {}
    ensures IsLeast(s, m)
  {
    m := Member(s);
    var rest := s - {m};
    assert s == rest + {m};
    if rest != {} {
      var n := LeastExists(rest);
      m := Min(m, n);
    }
  }

  lemma EverySetHasLeast(s: set<int>)
    requires s != {}
    ensures exists m :: IsLeast(s, m)
  {
    var m := LeastExists(s);
  }

  /** The rows of these months, month after month. */
  ghost function InMonthOrder(images: seq<Image>, monthOf: int -> int, months: set<int>): seq<Image> {
    if months == {} then []
    else
      EverySetHasLeast(months);
      var m :| IsLeast(months, m);
      OfMonth(images, monthOf, m) + InMonthOrder(images, monthOf, months - {m})
  }

  lemma LeastComesFirst(images: seq<Image>, monthOf: int -> int, months: set<int>, m: int)
    requires IsLeast(months, m)
    ensures InMonthOrder(images, monthOf, months)
            == OfMonth(images, monthOf, m) + InMonthOrder(images, monthOf, months - {m})
  {}

  /** The rows of a batch in the order in which they are inserted. */
  ghost function ByMonth(images: seq<Image>, monthOf: int -> int): seq<Image> {
    InMonthOrder(images, monthOf, Months(images, monthOf))
  }

  lemma {:induction false} InMonthOrderMembers(images: seq<Image>, monthOf: int -> int, months: set<int>, x: Image)
    ensures x in InMonthOrder(images, monthOf, months) <==> x in images && monthOf(x.observedAt) in months
  {
    if months != {} {
      var m := LeastExists(months);
      LeastComesFirst(images, monthOf, months, m);
      OfMonthMembers(images, monthOf, m, x);
      InMonthOrderMembers(images, monthOf, months - {m}, x);
    }
  }

  lemma ByMonthIsAll(images: seq<Image>, monthOf: int -> int)
    ensures SetOf(ByMonth(images, monthOf)) == SetOf(images)
  {
    forall x
      ensures x in ByMonth(images, monthOf) <==> x in images
    {
      InMonthOrderMembers(images, monthOf, Months(images, monthOf), x);
    }
  }

  lemma SetOfBoth(a: seq<Image>, b: seq<Image>)
    ensures SetOf(a + b) == SetOf(a) + SetOf(b)
  {}

  /** A whole backfill's rows in the order in which they are inserted: batch after batch,
      and month after month in each. */
  ghost function BackfillOrder(rows: seq<Row>, size: nat, monthOf: int -> int): seq<Image>
    requires size >= 1 && Positive(rows)
  {
    if rows == [] then []
    else
      var n := Min(size, |rows|);
      ByMonth(Images(rows[..n]), monthOf) + BackfillOrder(rows[n..], size, monthOf)
  }

  lemma {:induction false} BackfillOrderIsAll(rows: seq<Row>, size: nat, monthOf: int -> int)
    requires size >= 1 && Positive(rows)
    ensures SetOf(BackfillOrder(rows, size, monthOf)) == SetOf(Images(rows))
  {
    if rows != [] {
      var n := Min(size, |rows|);
      var batch := Images(rows[..n]);
      BackfillOrderIsAll(rows[n..], size, monthOf);
      assert rows == rows[..n] + rows[n..];
      ImagesOfBoth(rows[..n], rows[n..]);
      ByMonthIsAll(batch, monthOf);
      SetOfBoth(ByMonth(batch, monthOf), BackfillOrder(rows[n..], size, monthOf));
      SetOfBoth(batch, Images(rows[n..]));
    }
  }

  class MirrorStore {
    var table: Table

    constructor ()
      ensures table == map[]
    {
      table := map[];
    }

    /** One insert block; a later row replaces an earlier one with its key. */
    method Insert(images: seq<Image>)
      modifies this
      ensures table == PutAll(old(table), images)
    {
      for i := 0 to |images|
        invariant table == PutAll(old(table), images[..i])
      {
        assert images[..i + 1][..i] == images[..i];
        table := table[images[i].key := images[i]];
      }
      assert images[..|images|] == images;
    }

    /** The hook of the live path: an insert that failed changes nothing and is not
        reported. */
    method InsertEvents(images: seq<Image>, serverUp: bool) returns (n: nat)
      modifies this
      ensures table == if serverUp then PutAll(old(table), images) else old(table)
      ensures n == if serverUp then |images| else 0
    {
      if images == [] || !serverUp {
        return 0;
      }
      Insert(images);
      return |images|;
    }

    /** One batch: a block per month, the months in order. */
    method InsertByMonth(images: seq<Image>, monthOf: int -> int)
      modifies this
      ensures table == PutAll(old(table), ByMonth(images, monthOf))
    {
      var groups := GroupByMonth(images, monthOf);
      var todo := groups.Keys;
      while todo != {}
        invariant todo <= groups.Keys
        invariant PutAll(table, InMonthOrder(images, monthOf, todo)) == PutAll(old(table), ByMonth(images, monthOf))
        decreases todo
      {
        EverySetHasLeast(todo);
        var m :| m in todo && forall x :: x in todo ==> m <= x;
        LeastComesFirst(images, monthOf, todo, m);
        PutAllSplits(table, OfMonth(images, monthOf, m), InMonthOrder(images, monthOf, todo - {m}));
        Insert(groups[m]);
        todo := todo - {m};
      }
    }
  }

  // ---- Backfill -------------------------------------------------------------

  /** The first `limit` rows with an id above the cursor, in id order. */
  function NextBatch(rows: seq<Row>, lastId: int, limit: nat): seq<Row> {
    if rows == [] || limit == 0 then []
    else if rows[0].id > lastId then [rows[0]] + NextBatch(rows[1..], lastId, limit - 1)
    else NextBatch(rows[1..], lastId, limit)
  }

  /** The cursor stands after the first n rows. */
  predicate CursorAfter(rows: seq<Row>, n: nat, lastId: int) {
    n <= |rows| && forall i :: 0 <= i < |rows| ==> (i < n <==> rows[i].id <= lastId)
  }

  /** The batch is the next slice. */
  lemma {:induction false} BatchIsSlice(rows: seq<Row>, n: nat, lastId: int, limit: nat)
    requires CursorAfter(rows, n, lastId)
    ensures NextBatch(rows, lastId, limit) == rows[n..Min(n + limit, |rows|)]
  {
    if rows != [] && limit > 0 {
      var rest := rows[1..];
      if n > 0 {
        BatchIsSlice(rest, n - 1, lastId, limit);
        TailSlice(rows, n, Min(n + limit, |rows|));
      } else {
        BatchIsSlice(rest, 0, lastId, limit - 1);
        HeadSlice(rows, Min(limit, |rows|));
      }
    }
  }

  lemma TailSlice(rows: seq<Row>, n: nat, m: nat)
    requires 1 <= n <= m <= |rows|
    ensures rows[1..][n - 1..m - 1] == rows[n..m]
  {}

  lemma HeadSlice(rows: seq<Row>, m: nat)
    requires 1 <= m <= |rows|
    ensures [rows[0]] + rows[1..][0..m - 1] == rows[0..m]
  {}

  /** After a slice the cursor is the id of its last row. */
  lemma CursorMoves(rows: seq<Row>, n: nat)
    requires ById(rows) && 0 < n <= |rows|
    ensures CursorAfter(rows, n, rows[n - 1].id)
  {}

  /** The query for the next batch: n is the number of rows the cursor has passed. */
  method FetchBatch(rows: seq<Row>, lastId: int, limit: nat, ghost n: nat) returns (batch: seq<Row>)
    requires Positive(rows) && ById(rows) && limit >= 1 && CursorAfter(rows, n, lastId)
    ensures batch == NextBatch(rows, lastId, limit)
    ensures n + |batch| <= |rows| && (batch == [] <==> n == |rows|) && Positive(batch)
    ensures batch != [] ==> CursorAfter(rows, n + |batch|, batch[|batch| - 1].id)
    ensures rows[..n + |batch|] == rows[..n] + batch && |batch| == Min(limit, |rows| - n)
  {
    BatchIsSlice(rows, n, lastId, limit);
    batch := NextBatch(rows, lastId, limit);
    ghost var m := n + |batch|;
    assert batch == rows[n..m];
    if batch != [] {
      CursorMoves(rows, m);
    }
  }

  /** The table once the rows after the first n are in too. */
  ghost function Finished(table: Table, rows: seq<Row>, n: nat, size: nat, monthOf: int -> int): Table
    requires size >= 1 && Positive(rows) && n <= |rows|
  {
    PutAll(table, BackfillOrder(rows[n..], size, monthOf))
  }

  /** Inserts the batch that follows the first n rows. */
  method InsertNext(store: MirrorStore, ghost rows: seq<Row>, ghost n: nat, ghost next: nat, batch: seq<Row>,
                    ghost size: nat, monthOf: int -> int)
    requires size >= 1 && Positive(rows) && n < |rows| && |batch| == Min(size, |rows| - n) && next == n + |batch|
    requires rows[..next] == rows[..n] + batch && Positive(batch)
    modifies store
    ensures Finished(store.table, rows, next, size, monthOf) == Finished(old(store.table), rows, n, size, monthOf)
  {
    NextOrder(store.table, rows, n, batch, size, monthOf);
    store.InsertByMonth(Images(batch), monthOf);
  }

  /** One round: the batch after the cursor, if there is one. */
  method BackfillBatch(store: MirrorStore, rows: seq<Row>, total: nat, lastId: int, size: nat, monthOf: int -> int)
      returns (more: bool, total': nat, lastId': int)
    requires size >= 1 && Positive(rows) && ById(rows) && CursorAfter(rows, total, lastId)
    modifies store
    ensures CursorAfter(rows, total', lastId') && (if more then total' > total else total' == total == |rows|)
    ensures Finished(store.table, rows, total', size, monthOf) == Finished(old(store.table), rows, total, size, monthOf)
  {
    var batch := FetchBatch(rows, lastId, size, total);
    total' := total + |batch|;
    if batch == [] {
      return false, total, lastId;
    }
    more, lastId' := true, batch[|batch| - 1].id;
    InsertNext(store, rows, total, total', batch, size, monthOf);
  }

  /** The whole backfill: walks the id cursor to the end and visits every row once. */
  method BackfillFromPostgres(store: MirrorStore, rows: seq<Row>, batchSize: nat, monthOf: int -> int)
      returns (total: nat)
    requires batchSize >= 1 && Positive(rows) && ById(rows)
    modifies store
    ensures total == |rows|
    ensures store.table == PutAll(old(store.table), BackfillOrder(rows, batchSize, monthOf))
    ensures Covers(old(store.table), store.table, SetOf(Images(rows)))
  {
    total := 0;
    var lastId := 0;
    ghost var goal := Finished(store.table, rows, 0, batchSize, monthOf);
    assert rows[0..] == rows;
    var more := true;
    while more
      invariant CursorAfter(rows, total, lastId) && (!more ==> total == |rows|)
      invariant Finished(store.table, rows, total, batchSize, monthOf) == goal
      decreases |rows| - total, more
    {
      more, total, lastId := BackfillBatch(store, rows, total, lastId, batchSize, monthOf);
    }
    BackfillOrderIsAll(rows, batchSize, monthOf);
    PutAllCovers(old(store.table), BackfillOrder(rows, batchSize, monthOf));
  }

  lemma NextOrder(table: Table, rows: seq<Row>, n: nat, batch: seq<Row>, size: nat, monthOf: int -> int)
    requires size >= 1 && Positive(rows) && n < |rows| && |batch| == Min(size, |rows| - n)
    requires rows[..n + |batch|] == rows[..n] + batch && Positive(batch)
    ensures Finished(table, rows, n, size, monthOf)
            == Finished(PutAll(table, ByMonth(Images(batch), monthOf)), rows, n + |batch|, size, monthOf)
  {
    assert batch == rows[..n + |batch|][n..] == rows[n..][..|batch|];
    assert rows[n..][|batch|..] == rows[n + |batch|..];
    PutAllSplits(table, ByMonth(Images(batch), monthOf), BackfillOrder(rows[n + |batch|..], size, monthOf));
  }

  // ---- Convergence ----------------------------------------------------------

  /** Every committed event is in the mirror under its own key with exactly its image. */
  ghost predicate Mirrors(table: Table, rows: seq<Row>)
    requires Positive(rows)
  {
    forall i :: 0 <= i < |rows| ==> KeyOf(rows[i]) in table && table[KeyOf(rows[i])] == ImageOf(rows[i])
  }

  /** Whatever the mirror held before, whichever live inserts were lost: a backfill
      makes it mirror the event table exactly when the keys are distinct. */
  lemma BackfillConvergesIff(before: Table, after: Table, rows: seq<Row>)
    requires Positive(rows) && ById(rows) && UniqueIndex(rows) && Covers(before, after, SetOf(Images(rows)))
    ensures Mirrors(after, rows) <==> NobodyImpersonates(rows)
  {
    KeysDistinctIff(rows);
    ImagesAre(rows);
    forall i | 0 <= i < |rows|
      ensures ImageOf(rows[i]) in SetOf(Images(rows))
    {
      assert Images(rows)[i] == ImageOf(rows[i]);
    }
    if DistinctKeys(rows) {
      forall i | 0 <= i < |rows|
        ensures KeyOf(rows[i]) in after && after[KeyOf(rows[i])] == ImageOf(rows[i])
      {
        var x := ImageOf(rows[i]);
        CoversMeans(before, after, SetOf(Images(rows)), x.key);
        assert x in SetOf(Images(rows));
        var j :| 0 <= j < |rows| && Images(rows)[j] == after[x.key];
        assert i == j;
      }
    }
    if Mirrors(after, rows) {
      forall i, j | 0 <= i < j < |rows|
        ensures KeyOf(rows[i]) != KeyOf(rows[j])
      {
        SameKeyDifferentImage(rows, i, j);
      }
    }
  }

  lemma SameKeyDifferentImage(rows: seq<Row>, i: nat, j: nat)
    requires Positive(rows) && ById(rows) && UniqueIndex(rows) && i < j < |rows|
    ensures KeyOf(rows[i]) == KeyOf(rows[j]) ==> ImageOf(rows[i]) != ImageOf(rows[j])
  {
    if ExternalText(rows[i]) == "" && ExternalText(rows[j]) == "" && KeyOf(rows[i]) == KeyOf(rows[j]) {
      assert RowKey(rows[i].id)[2..] == PadHex(rows[i].id, 28);
      assert RowKey(rows[j].id)[2..] == PadHex(rows[j].id, 28);
      PadHexInjective(rows[i].id, rows[j].id, 28, 28);
    }
  }

  /** What was put in last under a key does not depend on what was there before. */
  lemma {:induction false} PutAllForgets(a: Table, b: Table, order: seq<Image>, k: Key)
    ensures var x, y := PutAll(a, order), PutAll(b, order);
            if HasKey(SetOf(order), k) then k in x && k in y && x[k] == y[k]
            else (k in x <==> k in a) && (k in x ==> x[k] == a[k])
  {
    PutAllMeans(a, order, k);
    PutAllMeans(b, order, k);
    if order != [] {
      var init, last := order[..|order| - 1], order[|order| - 1];
      PutAllForgets(a, b, init, k);
      assert order == init + [last];
      assert SetOf(order) == SetOf(init) + {last};
    }
  }

  /** A second backfill of the same events in batches of the same size changes nothing,
      whatever keys the events have: the order of the inserts is fixed. */
  lemma SecondBackfillChangesNothing(before: Table, rows: seq<Row>, size: nat, monthOf: int -> int)
    requires size >= 1 && Positive(rows)
    ensures var order := BackfillOrder(rows, size, monthOf);
            PutAll(PutAll(before, order), order) == PutAll(before, order)
  {
    var order := BackfillOrder(rows, size, monthOf);
    var once := PutAll(before, order);
    var twice := PutAll(once, order);
    forall k: Key
      ensures (k in once <==> k in twice) && (k in once ==> once[k] == twice[k])
    {
      PutAllForgets(before, once, order, k);
      PutAllForgets(once, before, order, k);
    }
    assert once.Keys == twice.Keys;
  }

  /** A later backfill in batches of another size, or with the months in another order,
      changes nothing either while nobody impersonates a key. */
  lemma AnyLaterBackfillChangesNothing(before: Table, once: Table, twice: Table, rows: seq<Row>)
    requires Positive(rows) && ById(rows) && UniqueIndex(rows) && NobodyImpersonates(rows)
    requires Covers(before, once, SetOf(Images(rows))) && Covers(once, twice, SetOf(Images(rows)))
    ensures once == twice
  {
    BackfillConvergesIff(before, once, rows);
    BackfillConvergesIff(once, twice, rows);
    forall k: Key
      ensures (k in once <==> k in twice) && (k in once ==> once[k] == twice[k])
    {
      SameUnderKey(once, twice, rows, k);
    }
    assert once.Keys == twice.Keys;
  }

  lemma SameUnderKey(once: Table, twice: Table, rows: seq<Row>, k: Key)
    requires Positive(rows) && Mirrors(once, rows) && Mirrors(twice, rows)
    requires Covers(once, twice, SetOf(Images(rows)))
    ensures (k in once <==> k in twice) && (k in once ==> once[k] == twice[k])
  {
    CoversMeans(once, twice, SetOf(Images(rows)), k);
    if x :| x in SetOf(Images(rows)) && x.key == k {
      ImagesAre(rows);
      var i :| 0 <= i < |rows| && Images(rows)[i] == x;
      assert KeyOf(rows[i]) == k;
    }
  }

  /** Two messages of one chat: the first came without an id, the second with one that
      spells the first one's key. The WhatsApp plugin passes ids on as they come. */
  function ImpersonatedRows(): (rows: seq<Row>)
    ensures Positive(rows)
  {
    [Row(1, "whatsapp", 7, None, None, None, None, 0, "first"),
     Row(2, "whatsapp", 7, None, None, Some(RowKey(1)), None, 0, "second")]
  }

  /** The condition is needed: after any backfill of these two, the mirror lacks one. */
  lemma ImpersonationHappens(before: Table, after: Table)
    requires Covers(before, after, SetOf(Images(ImpersonatedRows())))
    ensures UniqueIndex(ImpersonatedRows()) && ById(ImpersonatedRows()) && !Mirrors(after, ImpersonatedRows())
  {
    var rows := ImpersonatedRows();
    assert Impersonates(rows[1], rows[0]);
    BackfillConvergesIff(before, after, rows);
  }

  // ---- What a mirrored event says -------------------------------------------

  /** After a backfill with nobody impersonating, every event has its row in the mirror,
      under its external id, or its own number if it has none, and the row says what the
      event says; its time is the observation's, or the row's creation without one. */
  lemma MirroredFields(before: Table, after: Table, rows: seq<Row>, i: nat)
    requires Positive(rows) && ById(rows) && UniqueIndex(rows) && NobodyImpersonates(rows) && i < |rows|
    requires Covers(before, after, SetOf(Images(rows)))
    ensures var r := rows[i];
            var named := r.externalId.Some? && r.externalId.value != "";
            var key := Key(r.parser, r.target, if named then r.externalId.value else RowKey(r.id));
            && key in after
            && after[key].key == key
            && after[key].account == r.account && after[key].owner == r.owner && after[key].content == r.content
            && after[key].externalId == (if named then r.externalId.value else "")
            && (r.observedAt.Some? ==> after[key].observedAt == r.observedAt.value)
            && (r.observedAt.None? ==> after[key].observedAt == r.createdAt)
  {
    BackfillConvergesIff(before, after, rows);
    assert KeyOf(rows[i]) in after && after[KeyOf(rows[i])] == ImageOf(rows[i]);
  }

  /** From the parser to the mirror: an event that was written in some batch is there after
      any backfill of a table that still holds its row, with the batch's account and owner
      and its own text and time. */
  lemma EventReachesMirror(s: Store, ctx: Context, e: Event, before: Table, after: Table, rows: seq<Row>, i: nat)
    requires Accepts(s, ctx, e) && e.Identified() && i < |rows|
    requires rows[i] == InsertIfAbsent(s, ctx, e).rows[|s.rows|]
    requires Positive(rows) && ById(rows) && UniqueIndex(rows) && NobodyImpersonates(rows)
    requires Covers(before, after, SetOf(Images(rows)))
    ensures var key := Key(ctx.parser, ctx.target, e.externalId.value);
            && key in after && after[key].externalId == e.externalId.value
            && after[key].account == ctx.account && after[key].owner == ctx.owner && after[key].content == e.content
            && after[key].observedAt == if e.observedAt.Some? then e.observedAt.value else ctx.now
  {
    MirroredFields(before, after, rows, i);
  }

  /** A row's own number is spelled with "pg" and 28 hexadecimal digits. */
  lemma {:induction false} PadHexLength(n: nat, width: nat)
    requires n < Power16(width)
    ensures |PadHex(n, width)| == width
  {
    if width > 0 {
      PadHexLength(n / 16, width - 1);
    }
  }

  function Power16(width: nat): nat {
    if width == 0 then 1 else 16 * Power16(width - 1)
  }

  function HexValue(s: string): nat {
    if s == "" then 0
    else
      16 * HexValue(s[..|s| - 1])
      + (if '0' <= s[|s| - 1] <= '9' then s[|s| - 1] as int - '0' as int
         else if 'a' <= s[|s| - 1] <= 'f' then s[|s| - 1] as int - 'a' as int + 10 else 0)
  }

  lemma {:induction false} PadHexValue(n: nat, width: nat)
    ensures HexValue(PadHex(n, width)) == n
    decreases n, width
  {
    if n > 0 || width > 0 {
      var s := PadHex(n, width);
      PadHexValue(n / 16, if width == 0 then 0 else width - 1);
      assert s[..|s| - 1] == PadHex(n / 16, if width == 0 then 0 else width - 1);
    }
  }

  lemma RowKeySpellsNumber(id: nat)
    requires id < Power16(28)
    ensures |RowKey(id)| == 30 && "pg" <= RowKey(id) && HexValue(RowKey(id)[2..]) == id
  {
    PadHexLength(id, 28);
    PadHexValue(id, 28);
    assert RowKey(id)[2..] == PadHex(id, 28);
  }
}
