/** The comment walk: a queue of posts whose replies are still to be read, cut off at a
    depth, over reply data that may be cyclic. */
module Comments {
  import opened Common

  /** What the chat answers when asked for the replies of a message; a message whose
      replies cannot be read has none. */
  type Replies = map<int, seq<int>>

  function RepliesTo(replies: Replies, parent: int): seq<int> {
    if parent in replies then replies[parent] else []
  }

  datatype Comment = Comment(id: int, root: int, parent: int, depth: nat)

  /** A message whose replies are to be read; a root post carries no root of its own. */
  datatype Item = Item(parent: int, depth: nat, root: Option<int>)
  {
    function RootOf(): int { if root.Some? then root.value else parent }
    function Key(): (int, int) { (parent, depth) }
  }

  // ---- What should be found -------------------------------------------------

  predicate Reply(replies: Replies, parent: int, c: int) {
    c in RepliesTo(replies, parent)
  }

  /** A chain of replies from one of the given messages down to m. */
  predicate Chain(replies: Replies, from: set<int>, chain: seq<int>, m: int) {
    && chain != [] && chain[0] in from && chain[|chain| - 1] == m
    && forall i :: 0 <= i < |chain| - 1 ==> Reply(replies, chain[i], chain[i + 1])
  }

  /** Exactly d reply links lead from one of the given messages to m. */
  ghost predicate Reach(replies: Replies, from: set<int>, d: nat, m: int) {
    exists chain :: |chain| == d + 1 && Chain(replies, from, chain, m)
  }

  lemma ReplyIsDeeper(replies: Replies, from: set<int>, d: nat, p: int, c: int)
    requires Reach(replies, from, d, p) && Reply(replies, p, c)
    ensures Reach(replies, from, d + 1, c)
  {
    var chain :| |chain| == d + 1 && Chain(replies, from, chain, p);
    assert Chain(replies, from, chain + [c], c);
  }

  lemma ParentOf(replies: Replies, from: set<int>, d: nat, c: int) returns (p: int)
    requires d > 0 && Reach(replies, from, d, c)
    ensures Reach(replies, from, d - 1, p) && Reply(replies, p, c)
  {
    var chain :| |chain| == d + 1 && Chain(replies, from, chain, c);
    p := chain[d - 1];
    assert Reply(replies, chain[d - 1], chain[d]);
    assert Chain(replies, from, chain[..d], p);
  }

  lemma ReachWidens(replies: Replies, a: set<int>, b: set<int>, d: nat, m: int)
    requires a <= b && Reach(replies, a, d, m)
    ensures Reach(replies, b, d, m)
  {
    var chain :| |chain| == d + 1 && Chain(replies, a, chain, m);
    assert Chain(replies, b, chain, m);
  }

  /** The comments under one message. */
  function Block(replies: Replies, item: Item): (r: seq<Comment>)
    ensures |r| == |RepliesTo(replies, item.parent)|
    ensures forall i :: 0 <= i < |r| ==>
              r[i] == Comment(RepliesTo(replies, item.parent)[i], item.RootOf(), item.parent, item.depth + 1)
  {
    var found := RepliesTo(replies, item.parent);
    seq(|found|, i requires 0 <= i < |found| => Comment(found[i], item.RootOf(), item.parent, item.depth + 1))
  }

  function Blocks(replies: Replies, items: seq<Item>): seq<Comment> {
    if items == [] then []
    else Blocks(replies, items[..|items| - 1]) + Block(replies, items[|items| - 1])
  }

  function Children(replies: Replies, item: Item): (r: seq<Item>)
    ensures |r| == |RepliesTo(replies, item.parent)|
    ensures forall i :: 0 <= i < |r| ==>
              r[i] == Item(RepliesTo(replies, item.parent)[i], item.depth + 1, Some(item.RootOf()))
  {
    var found := RepliesTo(replies, item.parent);
    seq(|found|, i requires 0 <= i < |found| => Item(found[i], item.depth + 1, Some(item.RootOf())))
  }

  function Keys(items: seq<Item>): set<(int, int)> {
    set i | 0 <= i < |items| :: items[i].Key()
  }

  lemma KeysOfSum(a: seq<Item>, b: seq<Item>)
    ensures Keys(a + b) == Keys(a) + Keys(b)
  {
    assert forall i :: 0 <= i < |a| ==> (a + b)[i] == a[i];
    assert forall i :: 0 <= i < |b| ==> (a + b)[|a| + i] == b[i];
  }

  /** A message no deeper than the bound, tagged with a root it descends from. */
  ghost predicate Tagged(replies: Replies, roots: set<int>, bound: nat, item: Item) {
    && item.depth < bound && item.RootOf() in roots
    && Reach(replies, {item.RootOf()}, item.depth, item.parent)
  }

  ghost predicate AllTagged(replies: Replies, roots: set<int>, bound: nat, items: seq<Item>) {
    forall i :: 0 <= i < |items| ==> Tagged(replies, roots, bound, items[i])
  }

  predicate DistinctItems(items: seq<Item>) {
    forall i, j :: 0 <= i < j < |items| ==> items[i].Key() != items[j].Key()
  }

  /** Nothing is forgotten: every root and every reply above the bound to something
      already read is read or waiting. */
  ghost predicate Covers(replies: Replies, roots: set<int>, bound: nat, known: set<(int, int)>, read: set<(int, int)>) {
    && (forall r :: r in roots ==> (r, 0) in known)
    && (forall p, d, c :: (p, d) in read && d + 1 < bound && Reply(replies, p, c) ==> (c, d + 1) in known)
  }

  /** First come, first read: nothing read or waiting is shallower than what came before
      it, and what waits spans at most two depths. */
  predicate LevelByLevel(read: seq<Item>, queue: seq<Item>) {
    && ByDepth(read) && ByDepth(queue)
    && (forall i, j :: 0 <= i < |read| && 0 <= j < |queue| ==> read[i].depth <= queue[j].depth)
    && (forall j :: 0 <= j < |queue| ==> queue[j].depth <= queue[0].depth + 1)
  }

  predicate ByDepth(items: seq<Item>) {
    forall i, j :: 0 <= i < j < |items| ==> items[i].depth <= items[j].depth
  }

  // ---- The walk -------------------------------------------------------------

  /** Every message there is, at every depth above the bound. */
  function Universe(replies: Replies, roots: set<int>, bound: nat): set<(int, int)> {
    var messages := roots + set p, c | p in replies && c in replies[p] :: c;
    set m, d | m in messages && 0 <= d < bound :: (m, d)
  }

  lemma ReachIsInside(replies: Replies, from: set<int>, d: nat, m: int)
    requires Reach(replies, from, d, m)
    ensures m in from || exists p :: p in replies && m in replies[p]
  {
    if d > 0 {
      var p := ParentOf(replies, from, d, m);
    }
  }

  lemma TaggedIsInside(replies: Replies, roots: set<int>, bound: nat, item: Item)
    requires Tagged(replies, roots, bound, item)
    ensures item.Key() in Universe(replies, roots, bound)
  {
    ReachIsInside(replies, {item.RootOf()}, item.depth, item.parent);
  }

  lemma ChildrenAreTagged(replies: Replies, roots: set<int>, bound: nat, item: Item)
    requires Tagged(replies, roots, bound, item) && item.depth + 1 < bound
    ensures AllTagged(replies, roots, bound, Children(replies, item))
  {
    var children := Children(replies, item);
    forall i | 0 <= i < |children|
      ensures Tagged(replies, roots, bound, children[i])
    {
      ReplyIsDeeper(replies, {item.RootOf()}, item.depth, item.parent, children[i].parent);
    }
  }

  function Elements(s: seq<int>): set<int> {
    set i | 0 <= i < |s| :: s[i]
  }

  /** What the walk keeps between two turns of its loop. */
  ghost predicate Inv(replies: Replies, roots: set<int>, bound: nat, read: seq<Item>, queue: seq<Item>) {
    && DistinctItems(read) && LevelByLevel(read, queue)
    && AllTagged(replies, roots, bound, read) && AllTagged(replies, roots, bound, queue)
    && Covers(replies, roots, bound, Keys(read) + Keys(queue), Keys(read))
  }

  /** Exactly the messages above the bound that a root leads to have been read. */
  ghost predicate ReadExactly(replies: Replies, roots: set<int>, bound: nat, read: seq<Item>) {
    forall p, d :: (p, d) in Keys(read) <==> 0 <= d < bound && Reach(replies, roots, d, p)
  }

  /** One message's replies, emitted in order, and queued unless they are too deep. */
  method ReadReplies(replies: Replies, item: Item, bound: nat, out0: seq<Comment>, queue0: seq<Item>)
      returns (out: seq<Comment>, queue: seq<Item>)
    ensures out == out0 + Block(replies, item)
    ensures queue == queue0 + Further(replies, item, bound)
  {
    var comments := RepliesTo(replies, item.parent);
    out, queue := out0, queue0;
    for i := 0 to |comments|
      invariant out == out0 + Block(replies, item)[..i]
      invariant queue == queue0 + if item.depth + 1 < bound then Children(replies, item)[..i] else []
    {
      out := out + [Comment(comments[i], item.RootOf(), item.parent, item.depth + 1)];
      if item.depth + 1 < bound {
        queue := queue + [Item(comments[i], item.depth + 1, Some(item.RootOf()))];
      }
    }
  }

  /** What reading a message adds to the queue. */
  function Further(replies: Replies, item: Item, bound: nat): seq<Item> {
    if item.depth + 1 < bound then Children(replies, item) else []
  }

  lemma InvAtStart(replies: Replies, roots: seq<int>, bound: nat, queue: seq<Item>)
    requires bound >= 1 && |queue| == |roots|
    requires forall i :: 0 <= i < |roots| ==> queue[i] == Item(roots[i], 0, None)
    ensures Inv(replies, Elements(roots), bound, [], queue)
  {
    forall r | r in Elements(roots)
      ensures (r, 0) in Keys(queue)
    {
      var i :| 0 <= i < |roots| && roots[i] == r;
      assert queue[i].Key() == (r, 0);
    }
    forall i | 0 <= i < |queue|
      ensures Tagged(replies, Elements(roots), bound, queue[i])
    {
      assert Chain(replies, {roots[i]}, [roots[i]], roots[i]);
    }
  }

  lemma HeadAndRest(queue: seq<Item>)
    requires queue != []
    ensures Keys(queue) == {queue[0].Key()} + Keys(queue[1..])
  {
    assert queue == [queue[0]] + queue[1..];
    KeysOfSum([queue[0]], queue[1..]);
    KeysOfOne(queue[0]);
  }

  lemma KeysOfOne(item: Item)
    ensures Keys([item]) == {item.Key()}
  {
    assert [item][0] == item;
  }

  lemma SkipKeepsInv(replies: Replies, roots: set<int>, bound: nat, read: seq<Item>, queue: seq<Item>)
    requires queue != [] && queue[0].Key() in Keys(read) && Inv(replies, roots, bound, read, queue)
    ensures Inv(replies, roots, bound, read, queue[1..])
  {
    SkipKeepsKnown(read, queue);
    SkipKeepsOrder(read, queue);
  }

  lemma SkipKeepsKnown(read: seq<Item>, queue: seq<Item>)
    requires queue != [] && queue[0].Key() in Keys(read)
    ensures Keys(read) + Keys(queue) == Keys(read) + Keys(queue[1..])
  {
    HeadAndRest(queue);
  }

  lemma SkipKeepsOrder(read: seq<Item>, queue: seq<Item>)
    requires queue != [] && LevelByLevel(read, queue)
    ensures LevelByLevel(read, queue[1..])
  {
    assert forall j :: 0 <= j < |queue| - 1 ==> queue[1..][j] == queue[j + 1];
  }

  lemma ReadKeepsInv(replies: Replies, roots: set<int>, bound: nat, read: seq<Item>, queue: seq<Item>)
    requires queue != [] && queue[0].Key() !in Keys(read) && Inv(replies, roots, bound, read, queue)
    ensures Inv(replies, roots, bound, read + [queue[0]], queue[1..] + Further(replies, queue[0], bound))
    ensures Keys(read + [queue[0]]) == Keys(read) + {queue[0].Key()}
  {
    var item, rest := queue[0], queue[1..];
    KeysOfSum(read, [item]);
    KeysOfOne(item);
    NewKeyIsDistinct(read, item);
    QueueStaysOrdered(replies, item, bound, read, queue);
    QueueStaysTagged(replies, roots, bound, queue);
    ReadKeepsCovers(replies, roots, bound, read, queue);
  }

  lemma NewKeyIsDistinct(read: seq<Item>, item: Item)
    requires DistinctItems(read) && item.Key() !in Keys(read)
    ensures DistinctItems(read + [item])
  {
    assert forall i :: 0 <= i < |read| ==> read[i].Key() in Keys(read);
  }

  lemma QueueStaysTagged(replies: Replies, roots: set<int>, bound: nat, queue: seq<Item>)
    requires queue != [] && AllTagged(replies, roots, bound, queue)
    ensures AllTagged(replies, roots, bound, queue[1..] + Further(replies, queue[0], bound))
  {
    if queue[0].depth + 1 < bound {
      ChildrenAreTagged(replies, roots, bound, queue[0]);
    }
  }

  lemma QueueStaysOrdered(replies: Replies, item: Item, bound: nat, read: seq<Item>, queue: seq<Item>)
    requires queue != [] && item == queue[0] && LevelByLevel(read, queue)
    ensures LevelByLevel(read + [item], queue[1..] + Further(replies, item, bound))
  {
    var more := queue[1..] + Further(replies, item, bound);
    assert forall j :: 0 <= j < |queue| - 1 ==> more[j] == queue[j + 1];
    assert forall j :: |queue| - 1 <= j < |more| ==> more[j].depth == item.depth + 1;
  }

  lemma ReadKeepsCovers(replies: Replies, roots: set<int>, bound: nat, read: seq<Item>, queue: seq<Item>)
    requires queue != []
    requires Covers(replies, roots, bound, Keys(read) + Keys(queue), Keys(read))
    ensures var item := queue[0];
            var known := Keys(read + [item]) + Keys(queue[1..] + Further(replies, item, bound));
            Covers(replies, roots, bound, known, Keys(read + [item]))
  {
    var item := queue[0];
    var known := Keys(read + [item]) + Keys(queue[1..] + Further(replies, item, bound));
    ReadKeepsKnown(read, queue, Further(replies, item, bound));
    ChildrenAreKnown(replies, item);
    CoversGrows(replies, roots, bound, Keys(read) + Keys(queue), known, Keys(read), item);
  }

  lemma ReadKeepsKnown(read: seq<Item>, queue: seq<Item>, more: seq<Item>)
    requires queue != []
    ensures Keys(read + [queue[0]]) == Keys(read) + {queue[0].Key()}
    ensures Keys(read + [queue[0]]) + Keys(queue[1..] + more) == Keys(read) + Keys(queue) + Keys(more)
  {
    HeadAndRest(queue);
    KeysOfSum(read, [queue[0]]);
    KeysOfOne(queue[0]);
    KeysOfSum(queue[1..], more);
  }

  lemma CoversGrows(replies: Replies, roots: set<int>, bound: nat, known0: set<(int, int)>, known: set<(int, int)>,
                    read: set<(int, int)>, item: Item)
    requires Covers(replies, roots, bound, known0, read) && known0 <= known
    requires item.depth + 1 < bound ==> forall c :: Reply(replies, item.parent, c) ==> (c, item.depth + 1) in known
    ensures Covers(replies, roots, bound, known, read + {item.Key()})
  {}

  lemma ChildrenAreKnown(replies: Replies, item: Item)
    ensures forall c :: Reply(replies, item.parent, c) ==> (c, item.depth + 1) in Keys(Children(replies, item))
  {
    forall c | Reply(replies, item.parent, c)
      ensures (c, item.depth + 1) in Keys(Children(replies, item))
    {
      var i :| 0 <= i < |RepliesTo(replies, item.parent)| && RepliesTo(replies, item.parent)[i] == c;
      assert Children(replies, item)[i].Key() == (c, item.depth + 1);
    }
  }

  lemma SmallerRest(replies: Replies, roots: set<int>, bound: nat, read: seq<Item>, queue: seq<Item>)
    requires queue != [] && queue[0].Key() !in Keys(read) && AllTagged(replies, roots, bound, queue)
    ensures |Universe(replies, roots, bound) - (Keys(read) + {queue[0].Key()})|
            < |Universe(replies, roots, bound) - Keys(read)|
  {
    TaggedIsInside(replies, roots, bound, queue[0]);
    var all, key := Universe(replies, roots, bound), queue[0].Key();
    assert all - Keys(read) == (all - (Keys(read) + {key})) + {key};
  }

  /** Once nothing waits, everything above the bound that a root leads to has been read. */
  lemma {:induction false} ReachedIsRead(replies: Replies, roots: set<int>, bound: nat, read: set<(int, int)>, d: nat,
                                         m: int)
    requires Covers(replies, roots, bound, read, read) && d < bound && Reach(replies, roots, d, m)
    ensures (m, d) in read
  {
    if d > 0 {
      var p := ParentOf(replies, roots, d, m);
      ReachedIsRead(replies, roots, bound, read, d - 1, p);
    }
  }

  lemma ReadIsReached(replies: Replies, roots: set<int>, bound: nat, read: seq<Item>, p: int, d: int)
    requires AllTagged(replies, roots, bound, read) && (p, d) in Keys(read)
    ensures 0 <= d < bound && Reach(replies, roots, d, p)
  {
    var i :| 0 <= i < |read| && read[i].Key() == (p, d);
    ReachWidens(replies, {read[i].RootOf()}, roots, read[i].depth, p);
  }

  lemma EmptyQueueMeansAll(replies: Replies, roots: set<int>, bound: nat, read: seq<Item>)
    requires AllTagged(replies, roots, bound, read) && Covers(replies, roots, bound, Keys(read), Keys(read))
    ensures ReadExactly(replies, roots, bound, read)
  {
    forall p, d
      ensures (p, d) in Keys(read) ==> 0 <= d < bound && Reach(replies, roots, d, p)
    {
      if (p, d) in Keys(read) {
        ReadIsReached(replies, roots, bound, read, p, d);
      }
    }
    forall p, d | 0 <= d < bound && Reach(replies, roots, d, p)
      ensures (p, d) in Keys(read)
    {
      ReachedIsRead(replies, roots, bound, Keys(read), d, p);
    }
  }

  lemma NothingWaits(replies: Replies, roots: set<int>, bound: nat, read: seq<Item>, queue: seq<Item>)
    requires queue == [] && Inv(replies, roots, bound, read, queue)
    ensures ReadExactly(replies, roots, bound, read)
  {
    assert Keys(read) + Keys(queue) == Keys(read);
    EmptyQueueMeansAll(replies, roots, bound, read);
  }

  // ---- What was emitted -----------------------------------------------------

  lemma {:induction false} InBlocks(replies: Replies, items: seq<Item>, c: Comment)
    ensures c in Blocks(replies, items) <==> exists i :: 0 <= i < |items| && c in Block(replies, items[i])
  {
    if items != [] {
      var init, last := items[..|items| - 1], items[|items| - 1];
      InBlocks(replies, init, c);
      assert forall i :: 0 <= i < |init| ==> init[i] == items[i];
    }
  }

  /** A comment that is emitted replies to a message fewer than `bound` links below a root;
      it carries its depth and a root it descends from. */
  lemma EmittedDescends(replies: Replies, roots: set<int>, bound: nat, read: seq<Item>, c: Comment)
    requires AllTagged(replies, roots, bound, read) && ReadExactly(replies, roots, bound, read)
    requires c in Blocks(replies, read)
    ensures 1 <= c.depth <= bound
    ensures Reach(replies, roots, c.depth - 1, c.parent) && Reply(replies, c.parent, c.id)
    ensures c.root in roots && Reach(replies, {c.root}, c.depth, c.id)
  {
    InBlocks(replies, read, c);
    var i :| 0 <= i < |read| && c in Block(replies, read[i]);
    assert read[i].Key() in Keys(read);
    assert Tagged(replies, roots, bound, read[i]);
    ReplyIsDeeper(replies, {c.root}, c.depth - 1, c.parent, c.id);
  }

  /** And every such comment is emitted. */
  lemma ReachedIsEmitted(replies: Replies, roots: set<int>, bound: nat, read: seq<Item>, id: int, parent: int,
                         depth: nat)
      returns (root: int)
    requires ReadExactly(replies, roots, bound, read)
    requires 1 <= depth <= bound && Reach(replies, roots, depth - 1, parent) && Reply(replies, parent, id)
    ensures Comment(id, root, parent, depth) in Blocks(replies, read)
  {
    assert (parent, depth - 1) in Keys(read);
    var i :| 0 <= i < |read| && read[i].Key() == (parent, depth - 1);
    var k :| 0 <= k < |RepliesTo(replies, parent)| && RepliesTo(replies, parent)[k] == id;
    root := read[i].RootOf();
    assert Block(replies, read[i])[k] == Comment(id, root, parent, depth);
    InBlocks(replies, read, Comment(id, root, parent, depth));
  }

  ghost predicate Reachable(replies: Replies, roots: set<int>, bound: nat, id: int) {
    exists d: nat :: 1 <= d <= bound && Reach(replies, roots, d, id)
  }

  predicate Emitted(comments: seq<Comment>, id: int) {
    exists c :: c in comments && c.id == id
  }

  /** The ids emitted are exactly the messages that 1 to `bound` reply links lead to from
      a root, cycles or not. */
  lemma EmittedIffReachable(replies: Replies, roots: set<int>, bound: nat, read: seq<Item>, id: int)
    requires AllTagged(replies, roots, bound, read) && ReadExactly(replies, roots, bound, read)
    ensures Emitted(Blocks(replies, read), id) <==> Reachable(replies, roots, bound, id)
  {
    if Emitted(Blocks(replies, read), id) {
      var c :| c in Blocks(replies, read) && c.id == id;
      EmittedDescends(replies, roots, bound, read, c);
      ReplyIsDeeper(replies, roots, c.depth - 1, c.parent, id);
    }
    if Reachable(replies, roots, bound, id) {
      var d: nat :| 1 <= d <= bound && Reach(replies, roots, d, id);
      var p := ParentOf(replies, roots, d, id);
      var root := ReachedIsEmitted(replies, roots, bound, read, id, p, d);
    }
  }

  lemma EmittedIsRight(replies: Replies, roots: set<int>, bound: nat, read: seq<Item>)
    requires AllTagged(replies, roots, bound, read) && ReadExactly(replies, roots, bound, read)
    ensures forall id :: Emitted(Blocks(replies, read), id) <==> Reachable(replies, roots, bound, id)
    ensures forall c :: c in Blocks(replies, read) ==>
              c.root in roots && Reach(replies, {c.root}, c.depth, c.id) && Reply(replies, c.parent, c.id)
  {
    forall id
      ensures Emitted(Blocks(replies, read), id) <==> Reachable(replies, roots, bound, id)
    {
      EmittedIffReachable(replies, roots, bound, read, id);
    }
    forall c | c in Blocks(replies, read)
      ensures c.root in roots && Reach(replies, {c.root}, c.depth, c.id) && Reply(replies, c.parent, c.id)
    {
      EmittedDescends(replies, roots, bound, read, c);
    }
  }

  // ---- The loop -------------------------------------------------------------

  /** The walk reads every message above the bound that a root leads to, at every depth
      it is found at, once and level by level; what it emits are the replies of what it
      read. */
  method WalkComments(replies: Replies, roots: seq<int>, commentsDepth: int)
      returns (out: seq<Comment>, ghost read: seq<Item>)
    ensures out == Blocks(replies, read)
    ensures DistinctItems(read) && ByDepth(read) && AllTagged(replies, Elements(roots), Max(commentsDepth, 1), read)
    ensures ReadExactly(replies, Elements(roots), Max(commentsDepth, 1), read)
    ensures forall id :: Emitted(out, id) <==> Reachable(replies, Elements(roots), Max(commentsDepth, 1), id)
    ensures forall c :: c in out ==>
              c.root in Elements(roots) && Reach(replies, {c.root}, c.depth, c.id) && Reply(replies, c.parent, c.id)
  {
    var bound := Max(commentsDepth, 1);
    ghost var rootSet := Elements(roots);
    var queue := seq(|roots|, i requires 0 <= i < |roots| => Item(roots[i], 0, None));
    var visited: set<(int, int)> := {};
    out, read := [], [];
    InvAtStart(replies, roots, bound, queue);
    while queue != []
      invariant out == Blocks(replies, read) && visited == Keys(read)
      invariant Inv(replies, rootSet, bound, read, queue)
      decreases |Universe(replies, rootSet, bound) - visited|, |queue|
    {
      var item := queue[0];
      if item.Key() in visited {
        SkipKeepsInv(replies, rootSet, bound, read, queue);
        queue := queue[1..];
        continue;
      }
      ReadKeepsInv(replies, rootSet, bound, read, queue);
      SmallerRest(replies, rootSet, bound, read, queue);
      visited := visited + {item.Key()};
      out, queue := ReadReplies(replies, item, bound, out, queue[1..]);
      assert (read + [item])[..|read|] == read;
      read := read + [item];
    }
    NothingWaits(replies, rootSet, bound, read, queue);
    EmittedIsRight(replies, rootSet, bound, read);
  }
}
