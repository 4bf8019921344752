/** How many joins any 24 hours can hold on the clock the code reads, which has
    microseconds. The wait is cut to whole seconds, so a join can slip into the last
    second of a full window; only one join of any span can have done so. */
module FractionDay {
  import opened Common
  import opened JoinPacing
  import opened SlidingDay

  /** The microseconds joins really keep: all but a second of the gap, and one more. */
  function FineGap(lim: Limits): int {
    (lim.minGap - 1) * SECOND + 1
  }

  lemma GapsAreApart(lim: Limits, h: History)
    requires Gapped(lim, h)
    ensures Apart(h, FineGap(lim))
  {}

  // ---- The last second of a window ------------------------------------------

  /** The join came when its window was about to end, where no count holds it back. */
  predicate SlippedIn(h: History, i: nat) {
    i < |h.joins| && h.joins[i].epoch < |h.starts| && h.joins[i].at > h.starts[h.joins[i].epoch] + DAY - SECOND
  }

  function Early(h: History, k: nat): set<nat> {
    set i | i in InEpoch(h, k) && !SlippedIn(h, i)
  }

  /** Only joins of a window's last second can exceed the daily limit. */
  ghost predicate EarlyBounded(lim: Limits, h: History) {
    forall k: nat :: |Early(h, k)| <= Max(lim.daily, 0)
  }

  lemma CheckKeepsEarly(h: History, now: int, k: nat)
    requires WindowsOk(h)
    ensures Early(AfterRefresh(h, now), k) == Early(h, k)
  {
    var h1 := AfterRefresh(h, now);
    forall i: nat | i < |h.joins|
      ensures SlippedIn(h1, i) <==> SlippedIn(h, i)
    {}
  }

  lemma JoinKeepsEarly(lim: Limits, h: History, now: int, k: nat)
    requires WindowsOk(h) && h.starts != [] && now < h.starts[|h.starts| - 1] + DAY
    requires Wait(lim, h.window, now) == 0 && |Early(h, k)| <= Max(lim.daily, 0)
    ensures |Early(Joined(h, now), k)| <= Max(lim.daily, 0)
  {
    var h2, n := Joined(h, now), |h.joins|;
    forall i: nat | i < n
      ensures h2.joins[i] == h.joins[i] && (SlippedIn(h2, i) <==> SlippedIn(h, i))
    {}
    if k != Epoch(h) || SlippedIn(h2, n) {
      assert Early(h2, k) == Early(h, k);
    } else {
      assert h.window.count < lim.daily;
      assert Early(h2, k) == Early(h, k) + {n};
      SubsetCard(Early(h, k), InEpoch(h, k));
    }
  }

  lemma {:induction false} RunKeepsEarlyBounded(lim: Limits, run: seq<PacingStep>)
    requires IsRun(lim, run)
    ensures EarlyBounded(lim, After(run))
  {
    if run != [] {
      var init, e := run[..|run| - 1], run[|run| - 1];
      var h := After(init);
      RunKeepsEarlyBounded(lim, init);
      RunKeepsWindows(lim, init);
      RefreshKeepsWindows(h, e.now);
      forall k: nat
        ensures |Early(Step(h, e), k)| <= Max(lim.daily, 0)
      {
        CheckKeepsEarly(h, e.now, k);
        if e.Join? {
          JoinKeepsEarly(lim, AfterRefresh(h, e.now), e.now, k);
        }
      }
    } else {
      forall k: nat
        ensures Early(Fresh(), k) == {}
      {}
    }
  }

  /** Joins are recorded in the order of their windows. */
  predicate Ascending(h: History) {
    forall i, j :: 0 <= i < j < |h.joins| ==> h.joins[i].epoch <= h.joins[j].epoch
  }

  lemma {:induction false} RunKeepsAscending(lim: Limits, run: seq<PacingStep>)
    requires IsRun(lim, run)
    ensures Ascending(After(run))
  {
    if run != [] {
      RunKeepsAscending(lim, run[..|run| - 1]);
      RunKeepsWindows(lim, run[..|run| - 1]);
    }
  }

  /** What runs with a gap of two seconds keep on any clock. */
  ghost predicate FineHistory(lim: Limits, h: History) {
    WindowsOk(h) && Apart(h, FineGap(lim)) && Ascending(h) && EarlyBounded(lim, h) && lim.minGap >= 2
  }

  lemma RunIsFine(lim: Limits, run: seq<PacingStep>)
    requires IsRun(lim, run) && lim.minGap >= 2
    ensures FineHistory(lim, After(run))
  {
    RunKeepsWindows(lim, run);
    JoinsAreApart(lim, run);
    GapsAreApart(lim, After(run));
    RunKeepsAscending(lim, run);
    RunKeepsEarlyBounded(lim, run);
  }

  // ---- At most one join of a span slipped in --------------------------------

  lemma TwoAreApart(lim: Limits, h: History, i: nat, j: nat)
    requires Apart(h, FineGap(lim)) && lim.minGap >= 2 && i < j < |h.joins|
    ensures h.joins[j].at - h.joins[i].at > SECOND
  {
    JoinsSpread(h, FineGap(lim), i, j);
    Monotone(1, j - i, FineGap(lim));
  }

  /** Joins that fall within a second are one join. */
  lemma OneInASecond(lim: Limits, h: History, s: set<nat>, t: int)
    requires Apart(h, FineGap(lim)) && lim.minGap >= 2
    requires forall i :: i in s ==> i < |h.joins| && t <= h.joins[i].at <= t + SECOND
    ensures |s| <= 1
  {
    if |s| > 1 {
      var i, j := TwoMembers(s);
      TwoAreApart(lim, h, Min(i, j), Max(i, j));
      assert false;
    }
  }

  lemma OneSlipsPerWindow(lim: Limits, h: History, k: nat)
    requires FineHistory(lim, h)
    ensures |InEpoch(h, k) - Early(h, k)| <= 1
  {
    var s := InEpoch(h, k) - Early(h, k);
    if s != {} {
      var i := Member(s);
      OneInASecond(lim, h, s, h.starts[k] + DAY - SECOND);
    }
  }

  /** Where a join slipped into a later window than the span's first, the span ends with
      it, and of the first window only the last second is left in the span. */
  lemma SlipEndsSpan(lim: Limits, h: History, from: int, k: nat, a: nat, x: nat, i: nat)
    requires FineHistory(lim, h) && a in InSpan(h, from) && x in InSpan(h, from) && i in InSpan(h, from)
    requires h.joins[a].epoch == k < h.joins[x].epoch && SlippedIn(h, x)
    ensures h.joins[x].epoch == k + 1 && h.joins[i].epoch <= k + 1
    ensures h.joins[i].epoch == k ==> h.starts[k + 1] - SECOND <= h.joins[i].at <= h.starts[k + 1]
  {
    var e := h.joins[x].epoch;
    StartsAreDaysApart(h, k, e);
    Monotone(1, e - k, DAY);
    if e > k + 1 {
      Monotone(2, e - k, DAY);
      assert false;
    }
    if h.joins[i].epoch > k + 1 {
      TwoAreApart(lim, h, x, i);
      assert false;
    }
  }

  /** So any span holds at most two joins more than the limit, or all its joins but those
      of its first window came before their window's last second. */
  lemma SpanSlips(lim: Limits, h: History, from: int) returns (k: nat, first: nat)
    requires FineHistory(lim, h) && InSpan(h, from) != {}
    ensures first in InSpan(h, from) && h.joins[first].epoch == k && AllFrom(h, InSpan(h, from), k)
    ensures |InSpan(h, from)| <= Max(lim.daily, 0) + 2
            || forall i :: i in InSpan(h, from) && SlippedIn(h, i) ==> h.joins[i].epoch == k
  {
    var span := InSpan(h, from);
    first := EarliestOf(h, span);
    k := h.joins[first].epoch;
    if x :| x in span && SlippedIn(h, x) && h.joins[x].epoch != k {
      SlippedSpanIsSmall(lim, h, from, k, first, x);
    }
  }

  lemma SlippedSpanIsSmall(lim: Limits, h: History, from: int, k: nat, first: nat, x: nat)
    requires FineHistory(lim, h) && AllFrom(h, InSpan(h, from), k)
    requires first in InSpan(h, from) && x in InSpan(h, from)
    requires h.joins[first].epoch == k < h.joins[x].epoch && SlippedIn(h, x)
    ensures |InSpan(h, from)| <= Max(lim.daily, 0) + 2
  {
    var span := InSpan(h, from);
    var s := set i | i in span && h.joins[i].epoch == k;
    var slipped := InEpoch(h, k + 1) - Early(h, k + 1);
    forall i | i in span
      ensures i in s || i in InEpoch(h, k + 1)
      ensures i in s ==> h.starts[k + 1] - SECOND <= h.joins[i].at <= h.starts[k + 1]
    {
      SlipEndsSpan(lim, h, from, k, first, x, i);
    }
    SlipEndsSpan(lim, h, from, k, first, x, x);
    OneInASecond(lim, h, s, h.starts[k + 1] - SECOND);
    OneSlipsPerWindow(lim, h, k + 1);
    SubsetCard(span, s + Early(h, k + 1) + slipped);
    SumCard(s, Early(h, k + 1), slipped);
  }

  // ---- Bounds for readings with fractions -----------------------------------

  lemma SpanOfDays(lim: Limits, h: History, from: int, days: nat, daily: nat)
    requires FineHistory(lim, h) && JoinsLateAtMost(h, days * DAY) && daily == Max(lim.daily, 0)
    ensures |InSpan(h, from)| <= daily + 2 || |InSpan(h, from)| <= (days + 2) * daily + 1
  {
    if InSpan(h, from) != {} {
      var k, first := SpanSlips(lim, h, from);
      if |InSpan(h, from)| > daily + 2 {
        var early := InSpan(h, from) - (InEpoch(h, k) - Early(h, k));
        EarlyPart(lim, h, from, early, daily);
        SlidingDayBound(h, from, early, days, daily);
        OneSlipsPerWindow(lim, h, k);
        AllButOne(InSpan(h, from), InEpoch(h, k) - Early(h, k));
      }
    }
  }

  lemma AllButOne(a: set<nat>, b: set<nat>)
    requires |b| <= 1
    ensures |a| <= |a - b| + 1
  {
    SubsetCard(a, (a - b) + b);
  }

  lemma EarlyPart(lim: Limits, h: History, from: int, early: set<nat>, daily: nat)
    requires EarlyBounded(lim, h) && daily == Max(lim.daily, 0)
    requires forall i :: i in early ==> !SlippedIn(h, i)
    ensures forall e: nat :: |InEpoch(h, e) * early| <= daily
  {
    forall e: nat
      ensures |InEpoch(h, e) * early| <= daily
    {
      SubsetCard(InEpoch(h, e) * early, Early(h, e));
    }
  }

  /** With readings at most `days` days late, any 24 hours hold at most days + 2 times the
      daily limit, and on a clock with fractions only one join more: in order twice the
      limit and one, with readings up to a day old three times and one. */
  lemma LateDaysWidenTheBound(lim: Limits, run: seq<PacingStep>, from: int, days: nat)
    requires IsRun(lim, run) && LateAtMost(run, days * DAY)
    ensures WholeClock(run) ==> |InSpan(After(run), from)| <= (days + 2) * Max(lim.daily, 0)
    ensures lim.minGap >= 2 ==>
              |InSpan(After(run), from)| <= if lim.daily >= 1 then (days + 2) * lim.daily + 1 else 2
  {
    var h := After(run);
    RunKeepsWindows(lim, run);
    LatenessIff(lim, run, days * DAY);
    if WholeClock(run) {
      forall k: nat
        ensures |InEpoch(h, k) * InSpan(h, from)| <= Max(lim.daily, 0)
      {
        WindowHoldsDailyLimit(lim, run, k);
        SubsetCard(InEpoch(h, k) * InSpan(h, from), InEpoch(h, k));
      }
      SlidingDayBound(h, from, InSpan(h, from), days, Max(lim.daily, 0));
    }
    if lim.minGap >= 2 {
      RunIsFine(lim, run);
      SpanOfDays(lim, h, from, days, Max(lim.daily, 0));
      if lim.daily >= 1 {
        Monotone(2, days + 2, lim.daily);
      }
    }
  }

  /** The lateness in microseconds up to which twice the limit and one holds, or the gap
      alone keeps more out of a day. */
  predicate HarmlessFraction(lim: Limits, late: int) {
    || (2 * Max(lim.daily, 0) + 1) * FineGap(lim) >= DAY
    || (lim.daily >= 1 && lim.minGap >= 2 && late <= lim.daily * FineGap(lim) + 1)
  }

  lemma SpanOfHarmless(lim: Limits, h: History, from: int, late: int)
    requires FineHistory(lim, h) && JoinsLateAtMost(h, late) && lim.daily >= 1
    requires late <= lim.daily * FineGap(lim) + 1
    ensures |InSpan(h, from)| <= 2 * lim.daily + 1
  {
    if InSpan(h, from) != {} {
      var k0, a := SpanSlips(lim, h, from);
      if forall i :: i in InSpan(h, from) && SlippedIn(h, i) ==> h.joins[i].epoch == k0 {
        var k, first, mid, last := SpanInThree(h, from);
        assert k == k0 by {
          var i := Member(first);
        }
        SubsetCard(mid, Early(h, k + 1));
        if last == {} {
          WindowHoldsOneSlip(lim, h, first, k);
        } else {
          FewAtBothEnds(h, from, FineGap(lim), 1, late, first, last, k);
          FewMeansLess(|first| + |last| - 2, lim.daily, FineGap(lim));
        }
      }
    }
  }

  lemma WindowHoldsOneSlip(lim: Limits, h: History, s: set<nat>, k: nat)
    requires FineHistory(lim, h) && s <= InEpoch(h, k)
    ensures |s| <= Max(lim.daily, 0) + 1
  {
    var slipped := InEpoch(h, k) - Early(h, k);
    OneSlipsPerWindow(lim, h, k);
    SubsetCard(s, Early(h, k) + slipped);
  }

  /** When so many gaps fill a day, no more joins fit into it. */
  lemma FineGapAloneHolds(lim: Limits, run: seq<PacingStep>, from: int, n: nat)
    requires IsRun(lim, run) && n * FineGap(lim) >= DAY
    ensures |InSpan(After(run), from)| <= n
  {
    JoinsAreApart(lim, run);
    GapsAreApart(lim, After(run));
    if InSpan(After(run), from) != {} {
      GapIsPositive(n, FineGap(lim));
      GapAloneBounds(After(run), FineGap(lim), from);
      FewMeansLess(|InSpan(After(run), from)| - 1, n, FineGap(lim));
    }
  }

  lemma GapIsPositive(n: nat, gap: int)
    requires n * gap > 0
    ensures gap > 0
  {}

  /** On the clock the code reads: with readings harmlessly late, any 24 hours hold at most
      twice the daily limit and one. */
  lemma SlidingDayHoldsOneMore(lim: Limits, run: seq<PacingStep>, from: int, late: int)
    requires IsRun(lim, run) && LateAtMost(run, late) && HarmlessFraction(lim, late)
    ensures |InSpan(After(run), from)| <= 2 * Max(lim.daily, 0) + 1
  {
    if (2 * Max(lim.daily, 0) + 1) * FineGap(lim) >= DAY {
      FineGapAloneHolds(lim, run, from, 2 * Max(lim.daily, 0) + 1);
    } else {
      RunIsFine(lim, run);
      LatenessIff(lim, run, late);
      SpanOfHarmless(lim, After(run), from, late);
    }
  }
}
