/** Keyset pagination through the opaque cursor. */
module Paging {
  import opened Common
  import opened Cursor

  datatype Hit = Hit(place: Place, body: string)

  // ---- The result order -----------------------------------------------------

  /** Byte-wise comparison, a proper prefix first. */
  predicate KeyLess(a: Bytes, b: Bytes) {
    if b == [] then false
    else if a == [] then true
    else a[0] < b[0] || (a[0] == b[0] && KeyLess(a[1..], b[1..]))
  }

  predicate Less(p: Place, q: Place) {
    p.at < q.at || (p.at == q.at && KeyLess(p.key, q.key))
  }

  lemma {:induction false} KeyLessIsTotal(a: Bytes, b: Bytes)
    ensures !(KeyLess(a, b) && KeyLess(b, a)) && !KeyLess(a, a)
    ensures KeyLess(a, b) || KeyLess(b, a) || a == b
  {
    if a != [] && b != [] {
      KeyLessIsTotal(a[1..], b[1..]);
      KeyLessIsTotal(a[1..], a[1..]);
      if a[0] == b[0] && a[1..] == b[1..] {
        assert a == [a[0]] + a[1..] && b == [b[0]] + b[1..];
      }
    } else if a != [] {
      KeyLessIsTotal(a[1..], a[1..]);
    }
  }

  lemma {:induction false} KeyLessIsTransitive(a: Bytes, b: Bytes, c: Bytes)
    requires KeyLess(a, b) && KeyLess(b, c)
    ensures KeyLess(a, c)
  {
    if a != [] && a[0] == b[0] && b[0] == c[0] {
      KeyLessIsTransitive(a[1..], b[1..], c[1..]);
    }
  }

  /** The order on places is a strict total order. */
  lemma LessIsStrictTotal(p: Place, q: Place, r: Place)
    ensures !Less(p, p) && !(Less(p, q) && Less(q, p))
    ensures Less(p, q) || Less(q, p) || p == q
    ensures Less(p, q) && Less(q, r) ==> Less(p, r)
  {
    KeyLessIsTotal(p.key, q.key);
    KeyLessIsTotal(p.key, p.key);
    if KeyLess(p.key, q.key) && KeyLess(q.key, r.key) {
      KeyLessIsTransitive(p.key, q.key, r.key);
    }
  }

  /** Newest first, ties allowed. */
  predicate Descending(hits: seq<Hit>) {
    forall i, j :: 0 <= i < j < |hits| ==> !Less(hits[i].place, hits[j].place)
  }

  predicate DistinctPlaces(hits: seq<Hit>) {
    forall i, j :: 0 <= i < j < |hits| ==> hits[i].place != hits[j].place
  }

  // ---- One page -------------------------------------------------------------

  /** The hits a cursor leaves: those after the place it names. */
  function Below(hits: seq<Hit>, bound: Option<Place>): seq<Hit> {
    if hits == [] then []
    else if bound.None? || Less(hits[0].place, bound.value) then [hits[0]] + Below(hits[1..], bound)
    else Below(hits[1..], bound)
  }

  lemma {:induction false} BelowIsLower(hits: seq<Hit>, bound: Option<Place>, i: nat)
    requires i < |Below(hits, bound)|
    ensures Below(hits, bound)[i] in hits
    ensures bound.Some? ==> Less(Below(hits, bound)[i].place, bound.value)
  {
    var rest := Below(hits[1..], bound);
    if bound.None? || Less(hits[0].place, bound.value) {
      if i > 0 {
        BelowIsLower(hits[1..], bound, i - 1);
      }
    } else {
      BelowIsLower(hits[1..], bound, i);
    }
  }

  /** At most `limit` rows, and whether the one row fetched beyond them exists. */
  function Take(found: seq<Hit>, limit: nat): (r: (seq<Hit>, bool))
    requires limit >= 1
    ensures r.0 == found[..Min(limit, |found|)]
    ensures r.1 <==> |found| > limit
  {
    var fetched := found[..Min(limit + 1, |found|)];
    if |fetched| > limit then (fetched[..limit], true) else (fetched, false)
  }

  datatype Page = Page(rows: seq<Hit>, next: Option<string>)

  /** No cursor, or an empty one, starts at the top; None stands for "bad cursor". */
  function BoundOf(cursor: string): Option<Option<Place>> {
    if cursor == "" then Some(None)
    else if DecodeCursor(cursor).None? then None
    else Some(DecodeCursor(cursor))
  }

  /** The answer to one request: `hits` are all matching rows in result order. */
  function SearchEvents(hits: seq<Hit>, limit: nat, cursor: string): Option<Page>
    requires limit >= 1
  {
    var bound := BoundOf(cursor);
    if bound.None? then None
    else
      var (rows, more) := Take(Below(hits, bound.value), limit);
      Some(Page(rows, if more then Some(EncodeCursor(rows[limit - 1].place)) else None))
  }

  /** A cursor that names a place is never empty and leads to that place. */
  lemma CursorLeads(p: Place)
    ensures BoundOf(EncodeCursor(p)) == Some(Some(p))
  {
    CursorRoundTrip(p);
  }

  // ---- Following the cursors ------------------------------------------------

  /** What a client sees that follows next_cursor until there is none. */
  function Walk(hits: seq<Hit>, limit: nat, cursor: string): seq<Hit>
    requires limit >= 1
    decreases if BoundOf(cursor).Some? then |Below(hits, BoundOf(cursor).value)| else 0
  {
    var page := SearchEvents(hits, limit, cursor);
    if page.None? then []
    else if page.value.next.None? then page.value.rows
    else
      NextPageIsSmaller(hits, limit, cursor);
      page.value.rows + Walk(hits, limit, page.value.next.value)
  }

  /** The same pages by the place they start below, without cursors. */
  function WalkBelow(hits: seq<Hit>, limit: nat, bound: Option<Place>): seq<Hit>
    requires limit >= 1
    decreases |Below(hits, bound)|
  {
    var (rows, more) := Take(Below(hits, bound), limit);
    if more then
      LastIsLower(hits, limit, bound);
      rows + WalkBelow(hits, limit, Some(rows[limit - 1].place))
    else rows
  }

  lemma LastIsLower(hits: seq<Hit>, limit: nat, bound: Option<Place>)
    requires limit >= 1 && |Below(hits, bound)| > limit
    ensures var last := Below(hits, bound)[limit - 1];
            |Below(hits, Some(last.place))| < |Below(hits, bound)|
  {
    var found := Below(hits, bound);
    var last := found[limit - 1];
    assert last in found;
    BelowIsLower(hits, bound, limit - 1);
    BelowShrinks(hits, bound, last.place);
  }

  lemma NextPageIsSmaller(hits: seq<Hit>, limit: nat, cursor: string)
    requires limit >= 1 && BoundOf(cursor).Some?
    requires SearchEvents(hits, limit, cursor).value.next.Some?
    ensures var next := SearchEvents(hits, limit, cursor).value.next.value;
            && BoundOf(next).Some?
            && |Below(hits, BoundOf(next).value)| < |Below(hits, BoundOf(cursor).value)|
  {
    var found := Below(hits, BoundOf(cursor).value);
    CursorLeads(found[limit - 1].place);
    LastIsLower(hits, limit, BoundOf(cursor).value);
  }

  lemma WalkGoesOn(hits: seq<Hit>, limit: nat, cursor: string, rows: seq<Hit>, next: string)
    requires limit >= 1 && SearchEvents(hits, limit, cursor) == Some(Page(rows, Some(next)))
    ensures Walk(hits, limit, cursor) == rows + Walk(hits, limit, next)
  {}

  /** A full page carries a cursor that names its last row. */
  lemma NextNamesLast(hits: seq<Hit>, limit: nat, cursor: string, bound: Option<Place>) returns (next: string)
    requires limit >= 1 && BoundOf(cursor) == Some(bound) && |Below(hits, bound)| > limit
    ensures SearchEvents(hits, limit, cursor) == Some(Page(Below(hits, bound)[..limit], Some(next)))
    ensures BoundOf(next) == Some(Some(Below(hits, bound)[limit - 1].place))
  {
    var last := Below(hits, bound)[limit - 1].place;
    next := EncodeCursor(last);
    CursorLeads(last);
  }

  lemma WalkStops(hits: seq<Hit>, limit: nat, cursor: string, bound: Option<Place>)
    requires limit >= 1 && BoundOf(cursor) == Some(bound) && |Below(hits, bound)| <= limit
    ensures Walk(hits, limit, cursor) == WalkBelow(hits, limit, bound)
  {}

  /** A cursor says where to go on and nothing else: what a client sees depends only on
      the place its cursor names. */
  lemma {:induction false} WalkIsWalkBelow(hits: seq<Hit>, limit: nat, cursor: string, bound: Option<Place>)
    requires limit >= 1 && BoundOf(cursor) == Some(bound)
    ensures Walk(hits, limit, cursor) == WalkBelow(hits, limit, bound)
    decreases |Below(hits, bound)|
  {
    var found := Below(hits, bound);
    if |found| > limit {
      var next := NextNamesLast(hits, limit, cursor, bound);
      LastIsLower(hits, limit, bound);
      WalkIsWalkBelow(hits, limit, next, Some(found[limit - 1].place));
      WalkGoesOn(hits, limit, cursor, found[..limit], next);
    } else {
      WalkStops(hits, limit, cursor, bound);
    }
  }

  lemma {:induction false} BelowShrinks(hits: seq<Hit>, bound: Option<Place>, p: Place)
    requires bound.Some? ==> Less(p, bound.value)
    ensures Below(Below(hits, bound), Some(p)) == Below(hits, Some(p))
    ensures |Below(hits, Some(p))| <= |Below(hits, bound)|
    ensures (exists h :: h in Below(hits, bound) && h.place == p) ==> |Below(hits, Some(p))| < |Below(hits, bound)|
  {
    if hits != [] {
      BelowShrinks(hits[1..], bound, p);
      var h := hits[0];
      if bound.Some? {
        LessIsStrictTotal(h.place, p, bound.value);
      }
      LessIsStrictTotal(p, p, p);
      var rest := Below(hits[1..], bound);
      assert ([h] + rest)[1..] == rest;
    }
  }

  // ---- When every hit is seen -----------------------------------------------

  lemma {:induction false} AllBelow(hits: seq<Hit>, p: Place)
    requires forall i :: 0 <= i < |hits| ==> Less(hits[i].place, p)
    ensures Below(hits, Some(p)) == hits
  {
    if hits != [] {
      AllBelow(hits[1..], p);
    }
  }

  lemma {:induction false} NoBoundIsAll(hits: seq<Hit>)
    ensures Below(hits, None) == hits
  {
    if hits != [] {
      NoBoundIsAll(hits[1..]);
    }
  }

  /** What follows a hit in the order is no newer than it. */
  lemma LaterIsLower(hits: seq<Hit>, p: Place, i: nat, j: nat)
    requires Descending(hits) && i <= j < |hits| && Less(hits[i].place, p)
    ensures Less(hits[j].place, p)
  {
    if i < j {
      LessIsStrictTotal(hits[j].place, hits[i].place, p);
    }
  }

  /** What is below a place is the end of the list. */
  lemma {:induction false} BelowIsSuffix(hits: seq<Hit>, p: Place) returns (m: nat)
    requires Descending(hits)
    ensures m <= |hits| && Below(hits, Some(p)) == hits[m..]
    ensures forall i :: 0 <= i < |hits| ==> (i < m <==> !Less(hits[i].place, p))
  {
    if hits == [] {
      m := 0;
    } else if Less(hits[0].place, p) {
      m := 0;
      forall i | 0 <= i < |hits|
        ensures Less(hits[i].place, p)
      {
        LaterIsLower(hits, p, 0, i);
      }
      AllBelow(hits, p);
    } else {
      var rest := hits[1..];
      assert Descending(rest) by { TailDescends(hits); }
      var n := BelowIsSuffix(rest, p);
      m := n + 1;
      assert rest[n..] == hits[m..];
      assert forall i :: 0 < i < |hits| ==> hits[i] == rest[i - 1];
    }
  }

  lemma TailDescends(hits: seq<Hit>)
    requires Descending(hits) && hits != []
    ensures Descending(hits[1..])
  {
    assert forall i :: 0 <= i < |hits| - 1 ==> hits[1..][i] == hits[i + 1];
  }

  /** The page after the n-th hit starts with the next one exactly when the two differ in
      place; otherwise it starts behind all hits of that place. */
  lemma NextPageStart(hits: seq<Hit>, n: nat) returns (m: nat)
    requires Descending(hits) && 0 < n < |hits|
    ensures n <= m <= |hits| && Below(hits, Some(hits[n - 1].place)) == hits[m..]
    ensures m == n <==> hits[n - 1].place != hits[n].place
  {
    var p := hits[n - 1].place;
    m := BelowIsSuffix(hits, p);
    LessIsStrictTotal(p, p, p);
    LessIsStrictTotal(hits[n].place, p, p);
    assert n - 1 < m;
  }

  /** No two hits of one place meet where a page ends, for pages of `limit` from n on. */
  predicate NoTieFrom(hits: seq<Hit>, limit: nat, n: nat)
    requires limit >= 1
    decreases |hits| - n
  {
    n + limit < |hits| ==> hits[n + limit - 1].place != hits[n + limit].place && NoTieFrom(hits, limit, n + limit)
  }

  lemma WalkOn(hits: seq<Hit>, limit: nat, bound: Option<Place>, n: nat)
    requires limit >= 1 && n <= |hits| && Below(hits, bound) == hits[n..]
    ensures WalkBelow(hits, limit, bound)
            == if n + limit < |hits| then hits[n..n + limit] + WalkBelow(hits, limit, Some(hits[n + limit - 1].place))
               else hits[n..]
  {
    if n + limit < |hits| {
      assert hits[n..][limit - 1] == hits[n + limit - 1];
      assert hits[n..][..limit] == hits[n..n + limit];
    }
  }

  /** A walk sees no more than what lies below its start. */
  lemma {:induction false} WalkIsNoLonger(hits: seq<Hit>, limit: nat, bound: Option<Place>, n: nat)
    requires Descending(hits) && limit >= 1 && n <= |hits| && Below(hits, bound) == hits[n..]
    ensures |WalkBelow(hits, limit, bound)| <= |hits| - n
    decreases |hits| - n
  {
    WalkOn(hits, limit, bound, n);
    if n + limit < |hits| {
      var m := NextPageStart(hits, n + limit);
      WalkIsNoLonger(hits, limit, Some(hits[n + limit - 1].place), m);
    }
  }

  /** Where the place changes, the walk from n on sees the rest exactly when the walk from
      the next page sees its rest. */
  lemma PageSeesRestIff(hits: seq<Hit>, limit: nat, bound: Option<Place>, n: nat)
    requires limit >= 1 && n + limit < |hits| && Below(hits, bound) == hits[n..]
    requires hits[n + limit - 1].place != hits[n + limit].place
    requires WalkBelow(hits, limit, Some(hits[n + limit - 1].place)) == hits[n + limit..]
             <==> NoTieFrom(hits, limit, n + limit)
    ensures WalkBelow(hits, limit, bound) == hits[n..] <==> NoTieFrom(hits, limit, n)
  {
    WalkOn(hits, limit, bound, n);
    var rest := WalkBelow(hits, limit, Some(hits[n + limit - 1].place));
    SameRest(WalkBelow(hits, limit, bound), rest, hits, n, n + limit);
  }

  /** Where it does not, the next page starts too far down and a hit is lost. */
  lemma PageLosesRest(hits: seq<Hit>, limit: nat, bound: Option<Place>, n: nat)
    requires limit >= 1 && n + limit < |hits| && Below(hits, bound) == hits[n..]
    requires |WalkBelow(hits, limit, Some(hits[n + limit - 1].place))| < |hits| - (n + limit)
    ensures WalkBelow(hits, limit, bound) != hits[n..]
  {
    WalkOn(hits, limit, bound, n);
    var rest := WalkBelow(hits, limit, Some(hits[n + limit - 1].place));
    TooShort(WalkBelow(hits, limit, bound), rest, hits, n, n + limit);
  }

  lemma {:induction false} WalkIsRestIff(hits: seq<Hit>, limit: nat, bound: Option<Place>, n: nat)
    requires Descending(hits) && limit >= 1 && n <= |hits| && Below(hits, bound) == hits[n..]
    ensures WalkBelow(hits, limit, bound) == hits[n..] <==> NoTieFrom(hits, limit, n)
    decreases |hits| - n
  {
    var e := n + limit;
    if e < |hits| {
      var next := Some(hits[e - 1].place);
      var m := NextPageStart(hits, e);
      if m == e {
        WalkIsRestIff(hits, limit, next, e);
        PageSeesRestIff(hits, limit, bound, n);
      } else {
        WalkIsNoLonger(hits, limit, next, m);
        PageLosesRest(hits, limit, bound, n);
      }
    } else {
      WalkOn(hits, limit, bound, n);
    }
  }

  lemma SameRest(walk: seq<Hit>, rest: seq<Hit>, hits: seq<Hit>, n: nat, e: nat)
    requires n <= e <= |hits| && walk == hits[n..e] + rest
    ensures walk == hits[n..] <==> rest == hits[e..]
  {
    assert hits[n..] == hits[n..e] + hits[e..];
    assert rest == walk[e - n..];
    assert hits[e..] == hits[n..][e - n..];
  }

  lemma TooShort(walk: seq<Hit>, rest: seq<Hit>, hits: seq<Hit>, n: nat, e: nat)
    requires n <= e < |hits| && walk == hits[n..e] + rest && |rest| < |hits| - e
    ensures walk != hits[n..]
  {
    assert |walk| < |hits[n..]|;
  }

  predicate Complete(hits: seq<Hit>, limit: nat)
    requires limit >= 1
  {
    Walk(hits, limit, "") == hits
  }

  /** No two hits of one place meet where one full page ends and the next begins. */
  ghost predicate NoTieAtPageEnd(hits: seq<Hit>, limit: nat) {
    NoTieAfterPage(hits, limit, 0)
  }

  ghost predicate NoTieAfterPage(hits: seq<Hit>, limit: nat, k: nat) {
    forall i: nat :: k < i ==> PlaceChangesAt(hits, PageEnd(limit, i))
  }

  /** The hits on k full pages: k times the limit. */
  function PageEnd(limit: nat, k: nat): nat {
    if k == 0 then 0 else PageEnd(limit, k - 1) + limit
  }

  lemma {:induction false} PageEndsGrow(limit: nat, k: nat, i: nat)
    requires k <= i
    ensures PageEnd(limit, k) <= PageEnd(limit, i)
  {
    if k < i {
      PageEndsGrow(limit, k, i - 1);
    }
  }

  predicate PlaceChangesAt(hits: seq<Hit>, n: int) {
    0 < n < |hits| ==> hits[n - 1].place != hits[n].place
  }

  lemma {:induction false} NoTieIff(hits: seq<Hit>, limit: nat, k: nat)
    requires limit >= 1
    ensures NoTieFrom(hits, limit, PageEnd(limit, k)) <==> NoTieAfterPage(hits, limit, k)
    decreases |hits| - PageEnd(limit, k)
  {
    var e := PageEnd(limit, k + 1);
    if e < |hits| {
      NoTieIff(hits, limit, k + 1);
      assert PlaceChangesAt(hits, e) <==> hits[e - 1].place != hits[e].place;
    } else {
      forall i: nat | k < i
        ensures PageEnd(limit, i) >= |hits|
      {
        PageEndsGrow(limit, k + 1, i);
      }
    }
  }

  lemma WholeWalkIff(hits: seq<Hit>, limit: nat)
    requires Descending(hits) && limit >= 1
    ensures WalkBelow(hits, limit, None) == hits <==> NoTieFrom(hits, limit, 0)
  {
    NoBoundIsAll(hits);
    assert hits[0..] == hits;
    WalkIsRestIff(hits, limit, None, 0);
  }

  lemma NoTieAtPageEndIff(hits: seq<Hit>, limit: nat)
    requires limit >= 1
    ensures NoTieAtPageEnd(hits, limit) <==> NoTieFrom(hits, limit, 0)
  {
    assert PageEnd(limit, 0) == 0;
    NoTieIff(hits, limit, 0);
  }

  /** Exactly when following next_cursor from the start with this limit visits every hit
      once, in order, and ends: no two hits of one place meet at the end of a page. */
  lemma CompleteIff(hits: seq<Hit>, limit: nat)
    requires Descending(hits) && limit >= 1
    ensures Complete(hits, limit) <==> NoTieAtPageEnd(hits, limit)
  {
    WalkIsWalkBelow(hits, limit, "", None);
    WholeWalkIff(hits, limit);
    NoTieAtPageEndIff(hits, limit);
  }

  /** With distinct places every limit will do. */
  lemma WalkVisitsEverything(hits: seq<Hit>, limit: nat)
    requires Descending(hits) && DistinctPlaces(hits) && limit >= 1
    ensures Walk(hits, limit, "") == hits
  {
    CompleteIff(hits, limit);
  }

  /** Exactly when paging is complete for every page size: no two hits share a place. */
  lemma PagingIsCompleteIff(hits: seq<Hit>)
    requires Descending(hits)
    ensures (forall limit: nat :: limit >= 1 ==> Complete(hits, limit)) <==> DistinctPlaces(hits)
  {
    if DistinctPlaces(hits) {
      forall limit: nat | limit >= 1
        ensures Complete(hits, limit)
      {
        WalkVisitsEverything(hits, limit);
      }
    }
    SingleRowsNeedDistinctPlaces(hits);
    assert (forall limit: nat :: limit >= 1 ==> Complete(hits, limit)) ==> Complete(hits, 1);
  }

  lemma {:induction false} PageEndOfOne(k: nat)
    ensures PageEnd(1, k) == k
  {
    if k > 0 {
      PageEndOfOne(k - 1);
    }
  }

  lemma SingleRowsNeedDistinctPlaces(hits: seq<Hit>)
    requires Descending(hits)
    ensures Complete(hits, 1) ==> DistinctPlaces(hits)
  {
    CompleteIff(hits, 1);
    forall i, j | 0 <= i < j < |hits|
      ensures NoTieAtPageEnd(hits, 1) ==> hits[i].place != hits[j].place
    {
      if hits[i].place == hits[j].place {
        LessIsStrictTotal(hits[i].place, hits[i + 1].place, hits[j].place);
        assert hits[i].place == hits[i + 1].place;
        PageEndOfOne(i + 1);
        assert !PlaceChangesAt(hits, PageEnd(1, i + 1));
      }
    }
  }

  // ---- Why one parser and one target are enough -----------------------------

  /** A stored event: parser and target beside its place. */
  datatype Stored = Stored(parser: string, target: int, hit: Hit)

  /** The table keeps one row per (parser, target, event key). */
  predicate OneRowPerKey(stored: seq<Stored>) {
    forall i, j :: 0 <= i < j < |stored| ==>
      stored[i].parser != stored[j].parser || stored[i].target != stored[j].target
      || stored[i].hit.place.key != stored[j].hit.place.key
  }

  function Hits(stored: seq<Stored>): (r: seq<Hit>)
    ensures |r| == |stored|
    ensures forall i :: 0 <= i < |stored| ==> r[i] == stored[i].hit
  {
    seq(|stored|, i requires 0 <= i < |stored| => stored[i].hit)
  }

  /** A search narrowed to one parser and one target pages through all its rows. */
  lemma NarrowSearchIsComplete(stored: seq<Stored>, parser: string, target: int, limit: nat)
    requires OneRowPerKey(stored) && limit >= 1
    requires forall i :: 0 <= i < |stored| ==> stored[i].parser == parser && stored[i].target == target
    requires Descending(Hits(stored))
    ensures Walk(Hits(stored), limit, "") == Hits(stored)
  {
    assert DistinctPlaces(Hits(stored));
    WalkVisitsEverything(Hits(stored), limit);
  }

  /** A wider one can lose a row: message 5 of two channels at the same millisecond. */
  lemma WideSearchCanLoseARow()
    ensures var stored := [Stored("telegram", 1, Hit(Place(1000, [53]), "one")),
                           Stored("telegram", 2, Hit(Place(1000, [53]), "two"))];
            OneRowPerKey(stored) && Descending(Hits(stored)) && Walk(Hits(stored), 1, "") != Hits(stored)
  {
    var stored := [Stored("telegram", 1, Hit(Place(1000, [53]), "one")),
                   Stored("telegram", 2, Hit(Place(1000, [53]), "two"))];
    LessIsStrictTotal(stored[0].hit.place, stored[1].hit.place, stored[1].hit.place);
    SingleRowsNeedDistinctPlaces(Hits(stored));
  }

  // ---- Newest first ---------------------------------------------------------

  /** At place n the first text ends or has the smaller byte, and the two agree before. */
  predicate SmallerAt(a: Bytes, b: Bytes, n: nat) {
    n <= |a| && n < |b| && a[..n] == b[..n] && (n == |a| || a[n] < b[n])
  }

  lemma {:induction false} KeyLessIff(a: Bytes, b: Bytes)
    ensures KeyLess(a, b) <==> exists n: nat :: SmallerAt(a, b, n)
  {
    if a != [] && b != [] && a[0] == b[0] {
      KeyLessIff(a[1..], b[1..]);
      if n: nat :| SmallerAt(a[1..], b[1..], n) {
        assert a[..n + 1] == [a[0]] + a[1..][..n] && b[..n + 1] == [b[0]] + b[1..][..n];
        assert SmallerAt(a, b, n + 1);
      }
      if n: nat :| SmallerAt(a, b, n) {
        assert n > 0 && a[1..][..n - 1] == a[..n][1..] && b[1..][..n - 1] == b[..n][1..];
        assert SmallerAt(a[1..], b[1..], n - 1);
      }
    } else if b != [] && (a == [] || a[0] < b[0]) {
      assert SmallerAt(a, b, 0);
    } else {
      forall n: nat
        ensures !SmallerAt(a, b, n)
      {
        FirstAgrees(a, b, n);
      }
    }
  }

  lemma FirstAgrees(a: Bytes, b: Bytes, n: nat)
    ensures SmallerAt(a, b, n) && n > 0 ==> a[0] == b[0]
  {
    if SmallerAt(a, b, n) && n > 0 {
      assert a[..n][0] == b[..n][0];
    }
  }

  /** Seen earlier, or at the same time and with the smaller key. */
  ghost predicate Older(q: Place, p: Place) {
    q.at < p.at || (q.at == p.at && exists n: nat :: SmallerAt(q.key, p.key, n))
  }

  /** The page after a place has only older hits, and all of them when it is the last. */
  lemma PageAfterPlace(hits: seq<Hit>, limit: nat, p: Place, h: Hit)
    requires limit >= 1
    ensures var page := SearchEvents(hits, limit, EncodeCursor(p));
            && page.Some?
            && (h in page.value.rows ==> h in hits && Older(h.place, p))
            && (h in hits && Older(h.place, p) && page.value.next.None? ==> h in page.value.rows)
            && |page.value.rows| <= limit && (page.value.next.Some? ==> |page.value.rows| == limit)
  {
    CursorLeads(p);
    var found := Below(hits, Some(p));
    BelowHas(hits, p, h);
    KeyLessIff(h.place.key, p.key);
    var rows := SearchEvents(hits, limit, EncodeCursor(p)).value.rows;
    assert rows == found[..Min(limit, |found|)];
  }

  lemma {:induction false} BelowHas(hits: seq<Hit>, p: Place, h: Hit)
    ensures h in Below(hits, Some(p)) <==> h in hits && Less(h.place, p)
  {
    if hits != [] {
      BelowHas(hits[1..], p, h);
      assert hits == [hits[0]] + hits[1..];
    }
  }
}
