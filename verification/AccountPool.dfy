/** Choosing an account for an onboarding job, and how long to wait when there is none.
    Times are microseconds; scores are exact reals. */
module AccountPool {
  import opened Common
  import opened JoinPacing

  /** An active shared account as the picker sees it; `member` says whether its cached
      dialogs contain the target. */
  datatype PoolRow = PoolRow(id: int, alive: Option<bool>, channelsFull: bool, cooldownUntil: Option<int>,
                             hourlyLimit: int, hourCount: int, health: real, queued: nat, member: bool)

  predicate Gone(a: PoolRow) {
    a.alive == Some(false) || a.channelsFull
  }

  predicate CoolingDown(a: PoolRow, now: int) {
    a.cooldownUntil.Some? && a.cooldownUntil.value > now
  }

  predicate Available(a: PoolRow, now: int) {
    !Gone(a) && !CoolingDown(a, now)
  }

  function MinReal(a: real, b: real): real { if b < a then b else a }

  function LoadScore(a: PoolRow, now: int): real {
    var utilization := MinReal(a.hourCount as real / Max(a.hourlyLimit, 1) as real, 2.0);
    var healthPenalty := if a.health < 100.0 then (100.0 - a.health) / 100.0 else 0.0;
    var cooldownPenalty := if CoolingDown(a, now) then 10.0 else 0.0;
    var queuePenalty := MinReal(a.queued as real, 20.0) / 4.0;
    utilization * 5.0 + healthPenalty * 4.0 + cooldownPenalty + queuePenalty
  }

  /** Members first, then the lower score. */
  predicate Before(a: PoolRow, b: PoolRow, now: int) {
    (a.member && !b.member) || (a.member == b.member && LoadScore(a, now) < LoadScore(b, now))
  }

  predicate Candidate(a: PoolRow, privateChat: bool, now: int) {
    Available(a, now) && (privateChat ==> a.member)
  }

  /** The first of the best candidates; None exactly when there is no candidate. */
  function PickAccount(accounts: seq<PoolRow>, privateChat: bool, now: int): (picked: Option<PoolRow>)
    ensures picked.None? <==> forall a :: a in accounts ==> !Candidate(a, privateChat, now)
    ensures picked.Some? ==> picked.value in accounts && Candidate(picked.value, privateChat, now)
    ensures picked.Some? ==>
              forall a :: a in accounts && Candidate(a, privateChat, now) ==> !Before(a, picked.value, now)
  {
    if accounts == [] then None
    else
      var init, last := accounts[..|accounts| - 1], accounts[|accounts| - 1];
      assert accounts == init + [last];
      var best := PickAccount(init, privateChat, now);
      if Candidate(last, privateChat, now) && (best.None? || Before(last, best.value, now)) then Some(last) else best
  }

  /** A member is preferred to every non-member, however busy it is. */
  lemma MembersComeFirst(accounts: seq<PoolRow>, privateChat: bool, now: int, a: PoolRow)
    requires a in accounts && Available(a, now) && a.member
    ensures PickAccount(accounts, privateChat, now).Some? && PickAccount(accounts, privateChat, now).value.member
  {
    assert Candidate(a, privateChat, now);
  }

  // ---- The wait -------------------------------------------------------------

  predicate Paused(a: PoolRow, now: int) {
    !Gone(a) && CoolingDown(a, now)
  }

  function WaitFor(a: PoolRow, now: int): int
    requires Paused(a, now)
  {
    WholeSeconds(a.cooldownUntil.value - now) + 1
  }

  /** The shortest wait over the paused accounts, 0 if none is paused. */
  method PoolRetryWaitSeconds(accounts: seq<PoolRow>, now: int) returns (wait: int)
    ensures wait >= 0
    ensures wait == 0 <==> forall a :: a in accounts ==> !Paused(a, now)
    ensures wait > 0 ==> exists a :: a in accounts && Paused(a, now) && WaitFor(a, now) == wait
    ensures forall a :: a in accounts && Paused(a, now) ==> wait <= WaitFor(a, now)
  {
    var waits: seq<int> := [];
    for i := 0 to |accounts|
      invariant forall w :: w in waits ==> exists a :: a in accounts[..i] && Paused(a, now) && WaitFor(a, now) == w
      invariant forall a :: a in accounts[..i] && Paused(a, now) ==> WaitFor(a, now) in waits
    {
      var a := accounts[i];
      assert accounts[..i + 1] == accounts[..i] + [a];
      if a.alive == Some(false) || a.channelsFull {
        continue;
      }
      if a.cooldownUntil.Some? && a.cooldownUntil.value > now {
        assert Paused(a, now);
        waits := waits + [WholeSeconds(a.cooldownUntil.value - now) + 1];
      }
    }
    assert accounts[..|accounts|] == accounts;
    if waits == [] {
      return 0;
    }
    wait := waits[0];
    for i := 1 to |waits|
      invariant wait in waits && forall k :: 0 <= k < i ==> wait <= waits[k]
    {
      if waits[i] < wait {
        wait := waits[i];
      }
    }
  }

  /** What the shortest wait means, as the method's contract gives it. */
  predicate IsPoolWait(accounts: seq<PoolRow>, now: int, wait: int) {
    && (wait == 0 <==> forall a :: a in accounts ==> !Paused(a, now))
    && (wait > 0 ==> exists a :: a in accounts && Paused(a, now) && WaitFor(a, now) == wait)
    && (forall a :: a in accounts && Paused(a, now) ==> wait <= WaitFor(a, now))
  }

  predicate SomeAvailable(accounts: seq<PoolRow>, t: int) {
    exists a :: a in accounts && Available(a, t)
  }

  /** After an empty pick for a public target: wait 0 means every account is dead or
      full, now and for ever. */
  lemma ZeroWaitMeansNobody(accounts: seq<PoolRow>, now: int)
    requires PickAccount(accounts, false, now).None?
    ensures IsPoolWait(accounts, now, 0) <==> forall a :: a in accounts ==> Gone(a)
  {
    forall a | a in accounts
      ensures Gone(a) || Paused(a, now)
    {
      assert !Candidate(a, false, now);
    }
  }

  /** A wait w > 0 is exact to the second: some account is free from an instant in
      [now + w - 1, now + w) on, and none at any time before that instant. */
  lemma PositiveWaitIsExact(accounts: seq<PoolRow>, now: int, wait: int) returns (free: int)
    requires PickAccount(accounts, false, now).None?
    requires wait > 0 && IsPoolWait(accounts, now, wait)
    ensures now + (wait - 1) * SECOND <= free < now + wait * SECOND
    ensures forall t :: t >= now ==> (SomeAvailable(accounts, t) <==> t >= free)
  {
    var first := EarliestPaused(accounts, now);
    free := first.cooldownUntil.value;
    assert IsPoolWait(accounts, now, wait);
    var shortest :| shortest in accounts && Paused(shortest, now) && WaitFor(shortest, now) == wait;
    assert WaitFor(first, now) == wait;
    forall t | t >= now
      ensures SomeAvailable(accounts, t) <==> t >= free
    {
      if t >= free {
        assert Available(first, t);
      } else {
        forall a | a in accounts
          ensures !Available(a, t)
        {
          assert !Candidate(a, false, now);
        }
      }
    }
  }

  lemma EarliestPaused(accounts: seq<PoolRow>, now: int) returns (first: PoolRow)
    requires exists a :: a in accounts && Paused(a, now)
    ensures first in accounts && Paused(first, now)
    ensures forall a :: a in accounts && Paused(a, now) ==> first.cooldownUntil.value <= a.cooldownUntil.value
  {
    var init, last := accounts[..|accounts| - 1], accounts[|accounts| - 1];
    assert accounts == init + [last];
    if a :| a in init && Paused(a, now) {
      first := EarliestPaused(init, now);
      if Paused(last, now) && last.cooldownUntil.value < first.cooldownUntil.value {
        first := last;
      }
    } else {
      first := last;
    }
  }

  // ---- What the ranking means -----------------------------------------------

  /** The account may serve: not known dead, not full, not cooling down, and a member if
      the chat is private. */
  predicate MayServe(a: PoolRow, privateChat: bool, now: int) {
    && a.alive != Some(false) && !a.channelsFull && (a.cooldownUntil.Some? ==> a.cooldownUntil.value <= now)
    && (privateChat ==> a.member)
  }

  lemma PickMayServe(accounts: seq<PoolRow>, privateChat: bool, now: int)
    ensures PickAccount(accounts, privateChat, now).Some?
            <==> exists a :: a in accounts && MayServe(a, privateChat, now)
    ensures PickAccount(accounts, privateChat, now).Some? ==>
              MayServe(PickAccount(accounts, privateChat, now).value, privateChat, now)
  {
    forall a: PoolRow
      ensures MayServe(a, privateChat, now) <==> Candidate(a, privateChat, now)
    {}
  }

  /** The pick against any other account that may serve and equals it in membership and in
      all but one of what is rated: that one has no fewer jobs this hour, unless it is
      past twice its limit, no better health, unless both are full, and no shorter queue,
      unless it is past twenty. */
  lemma PickIsLeastLoaded(accounts: seq<PoolRow>, privateChat: bool, now: int, p: PoolRow, a: PoolRow)
    requires PickAccount(accounts, privateChat, now) == Some(p)
    requires a in accounts && MayServe(a, privateChat, now)
    ensures a.member ==> p.member
    ensures a.member == p.member && a.hourlyLimit == p.hourlyLimit && a.health == p.health && a.queued == p.queued ==>
              p.hourCount <= a.hourCount || a.hourCount >= 2 * Max(a.hourlyLimit, 1)
    ensures a.member == p.member && a.hourlyLimit == p.hourlyLimit && a.hourCount == p.hourCount
            && a.queued == p.queued ==>
              a.health <= p.health || p.health >= 100.0
    ensures a.member == p.member && a.hourlyLimit == p.hourlyLimit && a.hourCount == p.hourCount
            && a.health == p.health ==>
              p.queued <= a.queued || a.queued >= 20
  {
    assert Candidate(a, privateChat, now) && !Before(a, p, now);
    UtilizationRises(p.hourCount, a.hourCount, p.hourlyLimit);
    UtilizationRises(a.hourCount, p.hourCount, p.hourlyLimit);
  }

  lemma UtilizationRises(x: int, y: int, limit: int)
    ensures x < y ==> x as real / Max(limit, 1) as real < y as real / Max(limit, 1) as real
    ensures x >= 2 * Max(limit, 1) <==> x as real / Max(limit, 1) as real >= 2.0
  {
    var l := Max(limit, 1) as real;
    DivideBelow(x as real, y as real, l);
    DivideBelow(x as real, 2.0 * l, l);
    assert 2.0 * l / l == 2.0;
  }

  lemma DivideBelow(x: real, y: real, l: real)
    requires l > 0.0
    ensures x < y <==> x / l < y / l
  {
    assert x / l * l == x && y / l * l == y;
  }

  /** How much outweighs how much, while nothing is past its bound: one job in the queue
      weighs as much as a twentieth of the hourly limit and as 6.25 points of health. */
  lemma TradeOffs(accounts: seq<PoolRow>, privateChat: bool, now: int, p: PoolRow, a: PoolRow)
    requires PickAccount(accounts, privateChat, now) == Some(p)
    requires a in accounts && MayServe(a, privateChat, now) && a.member == p.member
    requires WithinBounds(a) && WithinBounds(p)
    ensures p.queued as real + 20.0 * (p.hourCount as real / p.hourlyLimit as real) - p.health * 0.16
            <= a.queued as real + 20.0 * (a.hourCount as real / a.hourlyLimit as real) - a.health * 0.16
  {
    assert Candidate(a, privateChat, now) && !Before(a, p, now);
    ScoreWithinBounds(a, now);
    ScoreWithinBounds(p, now);
  }

  lemma ScoreWithinBounds(a: PoolRow, now: int)
    requires WithinBounds(a) && !CoolingDown(a, now)
    ensures 4.0 * LoadScore(a, now)
            == a.queued as real + 20.0 * (a.hourCount as real / a.hourlyLimit as real) + 16.0 - a.health * 0.16
  {
    var u := a.hourCount as real / a.hourlyLimit as real;
    UtilizationAtMostTwo(a);
    assert a.health < 100.0 ==> (100.0 - a.health) / 100.0 == 1.0 - a.health * 0.01;
  }

  lemma UtilizationAtMostTwo(a: PoolRow)
    requires WithinBounds(a)
    ensures a.hourCount as real / a.hourlyLimit as real <= 2.0
  {
    DivideBelow(2.0 * a.hourlyLimit as real, a.hourCount as real, a.hourlyLimit as real);
    assert 2.0 * a.hourlyLimit as real / a.hourlyLimit as real == 2.0;
  }

  predicate WithinBounds(a: PoolRow) {
    a.hourlyLimit >= 1 && a.hourCount <= 2 * a.hourlyLimit && a.health <= 100.0 && a.queued <= 20
  }

  /** Among equals the first of the list is taken. */
  lemma {:induction false} PickIsEarliest(accounts: seq<PoolRow>, privateChat: bool, now: int) returns (i: nat)
    requires PickAccount(accounts, privateChat, now).Some?
    ensures i < |accounts| && PickAccount(accounts, privateChat, now) == Some(accounts[i])
    ensures forall k :: 0 <= k < i && MayServe(accounts[k], privateChat, now) ==> Before(accounts[i], accounts[k], now)
  {
    var init, last := accounts[..|accounts| - 1], accounts[|accounts| - 1];
    var best := PickAccount(init, privateChat, now);
    if PickAccount(accounts, privateChat, now) == best {
      i := PickIsEarliest(init, privateChat, now);
    } else {
      i := |accounts| - 1;
      forall k | 0 <= k < i && MayServe(accounts[k], privateChat, now)
        ensures Before(accounts[i], accounts[k], now)
      {
        assert init[k] in init && Candidate(init[k], privateChat, now);
      }
    }
  }

  /** A cooldown weighs as much as the load of twice the hourly limit. */
  lemma CooldownWeighs(a: PoolRow, now: int)
    requires CoolingDown(a, now)
    ensures LoadScore(a, now) == LoadScore(a.(cooldownUntil := None), now) + 10.0
  {}
}
