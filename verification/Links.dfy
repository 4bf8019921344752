/** Links between targets and accounts: at most one row per pair, at most one active
    row per target, through every operation that touches them. */
module Links {
  import opened Common

  datatype Link = Link(target: int, account: int, active: bool)

  predicate OneRowPerPair(links: seq<Link>) {
    forall i, j :: 0 <= i < j < |links| ==> links[i].target != links[j].target || links[i].account != links[j].account
  }

  predicate OneActivePerTarget(links: seq<Link>) {
    forall i, j :: 0 <= i < j < |links| && links[i].target == links[j].target ==> !(links[i].active && links[j].active)
  }

  predicate Sound(links: seq<Link>) {
    OneRowPerPair(links) && OneActivePerTarget(links)
  }

  predicate HasRow(links: seq<Link>, target: int, account: int) {
    exists i :: 0 <= i < |links| && links[i].target == target && links[i].account == account
  }

  /** The account that serves the target now. */
  predicate Serves(links: seq<Link>, target: int, account: int) {
    Link(target, account, true) in links
  }

  function Detached(link: Link, byTarget: bool, id: int): Link {
    if (if byTarget then link.target else link.account) == id then link.(active := false) else link
  }

  /** All rows of one target, or of one account, switched off; the rest as they were. */
  function DetachAll(links: seq<Link>, byTarget: bool, id: int): (r: seq<Link>)
    ensures |r| == |links|
    ensures forall i :: 0 <= i < |links| ==> r[i] == Detached(links[i], byTarget, id)
  {
    if links == [] then [] else [Detached(links[0], byTarget, id)] + DetachAll(links[1..], byTarget, id)
  }

  /** The targets that lose their active link when an account is detached, in row order. */
  function ServedTargets(links: seq<Link>, account: int): seq<int> {
    if links == [] then []
    else
      var before := ServedTargets(links[..|links| - 1], account);
      var last := links[|links| - 1];
      if last.account == account && last.active then before + [last.target] else before
  }

  function Revived(links: seq<Link>, target: int, account: int): (r: seq<Link>)
    ensures |r| == |links|
    ensures forall i :: 0 <= i < |links| ==>
              r[i] == if links[i].target == target && links[i].account == account
                      then links[i].(active := true) else links[i]
  {
    if links == [] then []
    else [if links[0].target == target && links[0].account == account then links[0].(active := true) else links[0]]
         + Revived(links[1..], target, account)
  }

  /** Linking: the target's links are switched off, then the pair's own row is revived
      if it exists and added if it does not. */
  function Linked(links: seq<Link>, target: int, account: int): seq<Link> {
    var off := DetachAll(links, true, target);
    if HasRow(links, target, account) then Revived(off, target, account) else off + [Link(target, account, true)]
  }

  class LinkTable {
    var links: seq<Link>

    constructor ()
      ensures links == []
    {
      links := [];
    }

    method DetachTarget(target: int)
      modifies this
      ensures links == DetachAll(old(links), true, target)
    {
      for i := 0 to |links|
        invariant |links| == |old(links)|
        invariant forall k :: 0 <= k < i ==> links[k] == Detached(old(links)[k], true, target)
        invariant forall k :: i <= k < |links| ==> links[k] == old(links)[k]
      {
        if links[i].target == target && links[i].active {
          links := links[i := links[i].(active := false)];
        }
      }
    }

    /** Detaches an account; `moved` lists the targets that were active on it. */
    method DetachAccount(account: int) returns (moved: seq<int>)
      modifies this
      ensures links == DetachAll(old(links), false, account)
      ensures moved == ServedTargets(old(links), account)
    {
      moved := [];
      ghost var was := links;
      assert was[..0] == [];
      for i := 0 to |links|
        invariant was == old(links) && |links| == |was|
        invariant forall k :: 0 <= k < i ==> links[k] == Detached(was[k], false, account)
        invariant forall k :: i <= k < |links| ==> links[k] == was[k]
        invariant moved == ServedTargets(was[..i], account)
      {
        assert was[..i + 1][..i] == was[..i];
        if links[i].account == account && links[i].active {
          moved := moved + [links[i].target];
          links := links[i := links[i].(active := false)];
        }
      }
      assert was[..|was|] == was;
    }

    /** The pair's own row, if there is one. */
    method FindRow(target: int, account: int) returns (row: Option<nat>)
      ensures row.Some? ==>
                row.value < |links| && links[row.value].target == target && links[row.value].account == account
      ensures row.None? ==> !HasRow(links, target, account)
    {
      for i := 0 to |links|
        invariant forall k :: 0 <= k < i ==> links[k].target != target || links[k].account != account
      {
        if links[i].target == target && links[i].account == account {
          return Some(i);
        }
      }
      return None;
    }

    method LinkTo(target: int, account: int)
      requires OneRowPerPair(links)
      modifies this
      ensures links == Linked(old(links), target, account)
    {
      DetachTarget(target);
      ghost var off := links;
      assert forall k :: 0 <= k < |off| ==>
          off[k].target == old(links)[k].target && off[k].account == old(links)[k].account;
      var row := FindRow(target, account);
      if row.Some? {
        links := links[row.value := links[row.value].(active := true)];
        assert links == Revived(off, target, account);
        assert old(links)[row.value].target == target;
      } else {
        assert !HasRow(old(links), target, account);
        links := links + [Link(target, account, true)];
      }
    }
  }

  // ---- What one operation does ----------------------------------------------

  /** Linking changes no row's target or account, nothing of another target, and adds
      at most a row for the target. */
  lemma LinkingKeepsRows(links: seq<Link>, target: int, account: int)
    ensures var r := Linked(links, target, account);
            && |r| >= |links|
            && (forall i :: 0 <= i < |links| && links[i].target != target ==> r[i] == links[i])
            && (forall i :: |links| <= i < |r| ==> r[i].target == target)
            && (forall i :: 0 <= i < |links| ==> r[i].target == links[i].target && r[i].account == links[i].account)
  {}

  lemma LinkingServesOne(links: seq<Link>, target: int, account: int)
    requires Sound(links)
    ensures forall a: int :: Serves(Linked(links, target, account), target, a) <==> a == account
  {
    var r := Linked(links, target, account);
    if HasRow(links, target, account) {
      var i :| 0 <= i < |links| && links[i].target == target && links[i].account == account;
      assert r[i] == Link(target, account, true);
    } else {
      assert r[|links|] == Link(target, account, true);
    }
  }

  lemma LinkingKeepsSound(links: seq<Link>, target: int, account: int)
    requires Sound(links)
    ensures Sound(Linked(links, target, account))
  {
    LinkingKeepsRows(links, target, account);
    var r := Linked(links, target, account);
    forall i, j | 0 <= i < j < |r|
      ensures !(r[i].target == r[j].target && r[i].account == r[j].account)
      ensures r[i].target == r[j].target ==> !(r[i].active && r[j].active)
    {
      OnlyTheChosenIsActive(links, target, account, i);
      OnlyTheChosenIsActive(links, target, account, j);
      assert j < |links| ==> !(links[i].target == links[j].target && links[i].account == links[j].account);
    }
  }

  lemma OnlyTheChosenIsActive(links: seq<Link>, target: int, account: int, i: nat)
    requires i < |Linked(links, target, account)|
    ensures var l := Linked(links, target, account)[i];
            l.target == target ==> (l.active <==> l.account == account)
  {}

  /** Linking leaves exactly the chosen account active on the target, keeps every
      other target's rows as they were, and keeps the table sound. */
  lemma LinkingChoosesOne(links: seq<Link>, target: int, account: int)
    requires Sound(links)
    ensures var r := Linked(links, target, account);
            && Sound(r)
            && (forall a: int :: Serves(r, target, a) <==> a == account)
            && |r| >= |links|
            && (forall i :: 0 <= i < |links| && links[i].target != target ==> r[i] == links[i])
            && (forall i :: |links| <= i < |r| ==> r[i].target == target)
            && (forall i :: 0 <= i < |links| ==> r[i].target == links[i].target && r[i].account == links[i].account)
  {
    LinkingKeepsRows(links, target, account);
    LinkingServesOne(links, target, account);
    LinkingKeepsSound(links, target, account);
  }

  /** Detaching keeps the table sound and leaves the target, or the account, with no
      active link; everything else stays. */
  lemma DetachingClears(links: seq<Link>, byTarget: bool, id: int)
    requires Sound(links)
    ensures var r := DetachAll(links, byTarget, id);
            && Sound(r)
            && (forall t: int, a: int :: (if byTarget then t else a) == id ==> !Serves(r, t, a))
            && (forall t: int, a: int ::
                  (if byTarget then t else a) != id ==> (Serves(r, t, a) <==> Serves(links, t, a)))
  {
    var r := DetachAll(links, byTarget, id);
    forall t: int, a: int | (if byTarget then t else a) != id
      ensures Serves(r, t, a) <==> Serves(links, t, a)
    {
      if Serves(links, t, a) {
        var i :| 0 <= i < |links| && links[i] == Link(t, a, true);
        assert r[i] == links[i];
      }
    }
  }

  /** The targets a failover moves are exactly those the account served. */
  lemma {:induction false} ServedTargetsAreServed(links: seq<Link>, account: int, target: int)
    ensures target in ServedTargets(links, account) <==> Serves(links, target, account)
  {
    if links != [] {
      ServedTargetsAreServed(links[..|links| - 1], account, target);
      assert links == links[..|links| - 1] + [links[|links| - 1]];
    }
  }

  // ---- Runs -----------------------------------------------------------------

  /** The operations on links: linking after onboarding, failover and disabling of an
      account, deletion and reassignment of a target. */
  datatype Op =
    | LinkOp(target: int, account: int)
    | FailoverOp(account: int)
    | DisableOp(account: int)
    | DeleteOp(target: int)
    | ReassignOp(target: int)

  function Apply(links: seq<Link>, op: Op): seq<Link> {
    match op
    case LinkOp(t, a) => Linked(links, t, a)
    case FailoverOp(a) => DetachAll(links, false, a)
    case DisableOp(a) => DetachAll(links, false, a)
    case DeleteOp(t) => DetachAll(links, true, t)
    case ReassignOp(t) => DetachAll(links, true, t)
  }

  function ApplyAll(ops: seq<Op>): seq<Link> {
    if ops == [] then [] else Apply(ApplyAll(ops[..|ops| - 1]), ops[|ops| - 1])
  }

  /** Who serves a target, from the operations alone: the account of the last link to
      it, unless the target or that account was detached since. */
  function LastLinked(ops: seq<Op>, target: int): Option<int> {
    if ops == [] then None
    else
      var before := LastLinked(ops[..|ops| - 1], target);
      match ops[|ops| - 1]
      case LinkOp(t, a) => if t == target then Some(a) else before
      case FailoverOp(a) => if before == Some(a) then None else before
      case DisableOp(a) => if before == Some(a) then None else before
      case DeleteOp(t) => if t == target then None else before
      case ReassignOp(t) => if t == target then None else before
  }

  /** Every run keeps one row per pair and one active link per target, and the active
      link is the one the history says. */
  lemma {:induction false} EveryRunIsSound(ops: seq<Op>)
    ensures Sound(ApplyAll(ops))
    ensures forall t: int, a: int :: Serves(ApplyAll(ops), t, a) <==> LastLinked(ops, t) == Some(a)
  {
    if ops != [] {
      var init, op := ops[..|ops| - 1], ops[|ops| - 1];
      var links := ApplyAll(init);
      EveryRunIsSound(init);
      match op
      case LinkOp(t, a) =>
        LinkingChoosesOne(links, t, a);
        LinkingKeepsOthers(links, t, a);
      case FailoverOp(a) => DetachingClears(links, false, a);
      case DisableOp(a) => DetachingClears(links, false, a);
      case DeleteOp(t) => DetachingClears(links, true, t);
      case ReassignOp(t) => DetachingClears(links, true, t);
    }
  }

  lemma LinkingKeepsOthers(links: seq<Link>, target: int, account: int)
    requires Sound(links)
    ensures forall t: int, a: int ::
              t != target ==> (Serves(Linked(links, target, account), t, a) <==> Serves(links, t, a))
  {
    LinkingChoosesOne(links, target, account);
    var r := Linked(links, target, account);
    forall t: int, a: int | t != target
      ensures Serves(r, t, a) <==> Serves(links, t, a)
    {
      if Serves(links, t, a) {
        var i :| 0 <= i < |links| && links[i] == Link(t, a, true);
        assert r[i] == links[i];
      }
      if Serves(r, t, a) {
        var i :| 0 <= i < |r| && r[i] == Link(t, a, true);
        assert i < |links|;
      }
    }
  }
}
