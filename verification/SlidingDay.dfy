/** How many joins any 24 hours can hold when clock readings arrive out of order: the
    lateness of the readings decides. The bounds here are for readings in whole seconds;
    those for readings with fractions are in FractionDay. */
module SlidingDay {
  import opened Common
  import opened JoinPacing

  const DAY_SECONDS := 86_400

  function InSpan(h: History, from: int): set<nat> {
    set i: nat | i < |h.joins| && from <= h.joins[i].at < from + DAY
  }

  // ---- Lateness -------------------------------------------------------------

  /** No recorded join is more than `late` microseconds older than the window it is
      counted in. */
  predicate JoinsLateAtMost(h: History, late: int) {
    forall i :: 0 <= i < |h.joins| ==>
      h.joins[i].epoch < |h.starts| && h.starts[h.joins[i].epoch] - h.joins[i].at <= late
  }

  /** The check before each join and the record of the joins say the same: no join is
      later than that. With 0: every join falls into its own window. */
  lemma {:induction false} LatenessIff(lim: Limits, run: seq<PacingStep>, late: int)
    requires IsRun(lim, run)
    ensures LateAtMost(run, late) <==> JoinsLateAtMost(After(run), late)
  {
    if run != [] {
      var init, e := run[..|run| - 1], run[|run| - 1];
      LatenessIff(lim, init, late);
      RunKeepsWindows(lim, init);
      StepKeepsLatenessIff(After(init), e, late);
    }
  }

  lemma StepKeepsLatenessIff(h: History, e: PacingStep, late: int)
    requires WindowsOk(h)
    ensures JoinsLateAtMost(Step(h, e), late) <==>
              JoinsLateAtMost(h, late) && (e.Join? ==> OnTime(AfterRefresh(h, e.now), e.now, late))
  {
    var h1, h2 := AfterRefresh(h, e.now), Step(h, e);
    assert h1.joins == h.joins;
    assert forall i :: 0 <= i < |h.joins| ==>
        h2.joins[i] == h.joins[i] && h2.starts[h.joins[i].epoch] == h.starts[h.joins[i].epoch];
    if e.Join? {
      assert h2.joins[|h.joins|] == JoinRecord(e.now, Epoch(h1));
    }
  }

  // ---- Any clock: windows a span can touch ----------------------------------

  lemma EarliestOf(h: History, s: set<nat>) returns (first: nat)
    requires s != {} && forall i :: i in s ==> i < |h.joins|
    ensures first in s && forall i :: i in s ==> h.joins[first].epoch <= h.joins[i].epoch
  {
    first := Member(s);
    var rest := s - {first};
    assert s == rest + {first};
    if rest != {} {
      var other := EarliestOf(h, rest);
      first := if h.joins[other].epoch < h.joins[first].epoch then other else first;
    }
  }

  /** The joins of n windows from window k on. */
  function InEpochs(h: History, k: nat, n: nat): set<nat> {
    set i: nat | i < |h.joins| && k <= h.joins[i].epoch < k + n
  }

  lemma {:induction false} EpochsHold(h: History, s: set<nat>, k: nat, n: nat, bound: nat)
    requires forall e: nat :: |InEpoch(h, e) * s| <= bound
    ensures |InEpochs(h, k, n) * s| <= n * bound
  {
    if n == 0 {
      assert InEpochs(h, k, 0) * s == {};
    } else {
      EpochsHold(h, s, k, n - 1, bound);
      assert InEpochs(h, k, n) * s == InEpochs(h, k, n - 1) * s + InEpoch(h, k + n - 1) * s;
      assert n * bound == (n - 1) * bound + bound;
    }
  }

  lemma FewWindowsHold(h: History, s: set<nat>, k: nat, n: nat, bound: nat)
    requires forall i :: i in s ==> i < |h.joins| && k <= h.joins[i].epoch < k + n
    requires forall e: nat :: |InEpoch(h, e) * s| <= bound
    ensures |s| <= n * bound
  {
    assert InEpochs(h, k, n) * s == s;
    EpochsHold(h, s, k, n, bound);
  }

  /** With readings at most `days` days late, two joins of one span are at most days + 1
      windows apart. */
  lemma SpanTouchesFewWindows(h: History, from: int, days: nat, i: nat, j: nat)
    requires WindowsOk(h) && JoinsLateAtMost(h, days * DAY) && i in InSpan(h, from) && j in InSpan(h, from)
    ensures h.joins[j].epoch < h.joins[i].epoch + days + 2
  {
    var k, e := h.joins[i].epoch, h.joins[j].epoch;
    if e > k {
      StartsAreDaysApart(h, k, e);
      assert (e - k) * DAY < (days + 2) * DAY;
    }
  }

  /** So joins of a span of which each window has at most `bound` are at most days + 2
      times as many. */
  lemma SlidingDayBound(h: History, from: int, s: set<nat>, days: nat, bound: nat)
    requires WindowsOk(h) && JoinsLateAtMost(h, days * DAY) && s <= InSpan(h, from)
    requires forall k: nat :: |InEpoch(h, k) * s| <= bound
    ensures |s| <= (days + 2) * bound
  {
    if s != {} {
      var first := EarliestOf(h, s);
      var k := h.joins[first].epoch;
      forall i | i in s
        ensures h.joins[i].epoch < k + days + 2
      {
        SpanTouchesFewWindows(h, from, days, first, i);
      }
      FewWindowsHold(h, s, k, days + 2, bound);
    }
  }

  // ---- Gaps inside a span ---------------------------------------------------

  /** Each join comes at least `gap` microseconds after the one before. */
  predicate Apart(h: History, gap: int) {
    forall i :: 0 <= i < |h.joins| - 1 ==> h.joins[i + 1].at - h.joins[i].at >= gap
  }

  predicate WholeStarts(h: History) {
    && (forall k :: 0 <= k < |h.starts| ==> h.starts[k] % SECOND == 0)
    && (forall i :: 0 <= i < |h.joins| ==> h.joins[i].at % SECOND == 0)
  }

  /** The clock's tick: a microsecond, or a second when all readings are whole. */
  predicate Ticks(h: History, tick: int) {
    tick == 1 || (tick == SECOND && WholeStarts(h))
  }

  lemma {:induction false} WholeClockWholeStarts(run: seq<PacingStep>)
    requires WholeClock(run)
    ensures WholeStarts(After(run))
  {
    if run != [] {
      var init := run[..|run| - 1];
      assert forall i :: 0 <= i < |init| ==> init[i] == run[i];
      WholeClockWholeStarts(init);
    }
  }

  /** What is earlier is earlier by a tick. */
  lemma TickBelow(x: int, y: int, tick: int)
    requires tick == 1 || (tick == SECOND && x % SECOND == 0 && y % SECOND == 0)
    requires x < y
    ensures x <= y - tick
  {}

  lemma {:induction false} JoinsSpread(h: History, gap: int, i: nat, j: nat)
    requires Apart(h, gap) && i <= j < |h.joins|
    ensures h.joins[j].at - h.joins[i].at >= (j - i) * gap
    decreases j
  {
    if i < j {
      JoinsSpread(h, gap, i, j - 1);
      assert (j - i) * gap == (j - 1 - i) * gap + gap;
    }
  }

  function Interval(a: nat, n: nat): (s: set<nat>)
    ensures |s| == n && forall i: nat :: i in s <==> a <= i < a + n
  {
    if n == 0 then {} else Interval(a, n - 1) + {a + n - 1}
  }

  lemma {:induction false} Ends(s: set<nat>) returns (a: nat, b: nat)
    requires s != {}
    ensures a in s && b in s && forall i :: i in s ==> a <= i <= b
    ensures |s| <= b - a + 1
  {
    var x := Member(s);
    var rest := s - {x};
    assert s == rest + {x};
    a, b := x, x;
    if rest != {} {
      var lo, hi := Ends(rest);
      a, b := if lo < x then lo else x, if hi > x then hi else x;
    }
    SubsetCard(s, Interval(a, b - a + 1));
  }

  /** A set of joins, the first of them and the last: that many gaps lie between. */
  lemma GapsBetween(h: History, gap: nat, s: set<nat>) returns (a: nat, b: nat)
    requires Apart(h, gap) && s != {} && forall i :: i in s ==> i < |h.joins|
    ensures a in s && b in s && h.joins[b].at - h.joins[a].at >= (|s| - 1) * gap
  {
    a, b := Ends(s);
    JoinsSpread(h, gap, a, b);
    Monotone(|s| - 1, b - a, gap);
  }

  lemma Monotone(x: int, y: int, g: int)
    requires x <= y && g >= 0
    ensures x * g <= y * g
  {}

  /** A day holds no more joins than the gap lets in. */
  lemma GapAloneBounds(h: History, gap: nat, from: int)
    requires Apart(h, gap) && InSpan(h, from) != {}
    ensures (|InSpan(h, from)| - 1) * gap < DAY
  {
    var a, b := GapsBetween(h, gap, InSpan(h, from));
  }

  /** The joins of one window end before it does. */
  lemma FirstEndsInWindow(h: History, gap: nat, tick: int, s: set<nat>, k: nat) returns (a: nat)
    requires WindowsOk(h) && Ticks(h, tick) && Apart(h, gap) && s != {}
    requires s <= InEpoch(h, k)
    ensures a in s && k < |h.starts|
    ensures h.joins[a].at + (|s| - 1) * gap <= h.starts[k] + DAY - tick
  {
    var b;
    a, b := GapsBetween(h, gap, s);
    TickBelow(h.joins[b].at, h.starts[k] + DAY, tick);
  }

  /** They belong to window k or later ones. */
  predicate AllFrom(h: History, s: set<nat>, k: nat) {
    forall i :: i in s ==> i < |h.joins| && h.joins[i].epoch >= k
  }

  /** The joins from two windows on start at most their lateness before that. */
  lemma LastStartsLate(h: History, gap: nat, late: int, s: set<nat>, k: nat) returns (d: nat)
    requires WindowsOk(h) && Apart(h, gap) && JoinsLateAtMost(h, late) && s != {}
    requires AllFrom(h, s, k + 2)
    ensures d in s && k < |h.starts|
    ensures h.joins[d].at >= h.starts[k] + 2 * DAY - late + (|s| - 1) * gap
  {
    var c;
    c, d := GapsBetween(h, gap, s);
    StartsAreDaysApart(h, k, h.joins[c].epoch);
    assert (h.joins[c].epoch - k) * DAY >= 2 * DAY;
  }

  /** Both ends of a span that reaches over a whole window hold few joins: the late ones
      at its end must fit between the last joins of its first window and its own end. */
  lemma FewAtBothEnds(h: History, from: int, gap: nat, tick: int, late: int, first: set<nat>, last: set<nat>, k: nat)
    requires WindowsOk(h) && Ticks(h, tick) && Apart(h, gap) && JoinsLateAtMost(h, late)
    requires first != {} && last != {}
    requires first <= InEpoch(h, k) && first <= InSpan(h, from) && last <= InSpan(h, from) && AllFrom(h, last, k + 2)
    ensures (|first| + |last| - 2) * gap <= late - 2 * tick
  {
    var a := FirstEndsInWindow(h, gap, tick, first, k);
    var d := LastStartsLate(h, gap, late, last, k);
    assert a in InSpan(h, from) && d in InSpan(h, from);
    EndsLeave(h.joins[a].at, h.joins[d].at, h.starts[k], |first| - 1, |last| - 1, gap, tick, late);
  }

  /** A join at x with m gaps up to its window's end and a join at y of the same day, n
      gaps into the late ones. */
  lemma EndsLeave(x: int, y: int, start: int, m: int, n: int, gap: int, tick: int, late: int)
    requires tick == 1 || (tick == SECOND && x % SECOND == 0 && y % SECOND == 0)
    requires y < x + DAY && x + m * gap <= start + DAY - tick && y >= start + 2 * DAY - late + n * gap
    ensures (m + n) * gap <= late - 2 * tick
  {
    TickBelow(y, x + DAY, tick);
    assert m * gap + n * gap == (m + n) * gap;
  }

  /** The joins of a span by window: the first it touches, the next, and those after. */
  lemma SpanInThree(h: History, from: int) returns (k: nat, first: set<nat>, mid: set<nat>, last: set<nat>)
    requires WindowsOk(h) && InSpan(h, from) != {}
    ensures first != {} && first <= InEpoch(h, k) && mid <= InEpoch(h, k + 1)
    ensures first <= InSpan(h, from) && mid <= InSpan(h, from) && last <= InSpan(h, from) && AllFrom(h, last, k + 2)
    ensures AllFrom(h, InSpan(h, from), k) && |InSpan(h, from)| <= |first| + |mid| + |last|
  {
    var span := InSpan(h, from);
    var e := EarliestOf(h, span);
    k := h.joins[e].epoch;
    first := set i | i in span && h.joins[i].epoch == k;
    mid := set i | i in span && h.joins[i].epoch == k + 1;
    last := set i | i in span && h.joins[i].epoch >= k + 2;
    assert e in first;
    assert span == first + mid + last;
    SumCard(first, mid, last);
  }

  lemma SumCard(a: set<nat>, b: set<nat>, c: set<nat>)
    ensures |a + b + c| <= |a| + |b| + |c|
  {}

  lemma FewMeansLess(x: int, y: int, gap: int)
    requires gap >= 0 && x * gap < y * gap
    ensures x < y
  {
    if x >= y {
      Monotone(y, x, gap);
    }
  }

  // ---- Readings in whole seconds --------------------------------------------

  /** The seconds joins really keep; a negative gap keeps none. */
  function Gap(lim: Limits): nat {
    Max(lim.minGap, 0)
  }

  /** The lateness up to which twice the daily limit holds. When the gap alone keeps
      more joins out of a day, every lateness is harmless. */
  predicate Harmless(lim: Limits, seconds: int) {
    || lim.daily <= 0
    || 2 * lim.daily * Gap(lim) >= DAY_SECONDS
    || seconds <= (lim.daily - 1) * Gap(lim) + 1
  }

  /** Whatever the gap: a reading a second late does not bring a third window into a day. */
  lemma ThirdWindowIsADayAway(h: History, late: int, a: nat, d: nat)
    requires WindowsOk(h) && WholeStarts(h) && JoinsLateAtMost(h, late) && late <= SECOND
    requires a < |h.joins| && d < |h.joins| && h.joins[d].epoch >= h.joins[a].epoch + 2
    ensures h.joins[d].at - h.joins[a].at >= DAY
  {
    var k, e := h.joins[a].epoch, h.joins[d].epoch;
    StartsAreDaysApart(h, k, e);
    assert (e - k) * DAY >= 2 * DAY;
    TickBelow(h.joins[a].at, h.starts[k] + DAY, SECOND);
  }

  lemma WholeGapsAreApart(lim: Limits, h: History)
    requires WholeGapped(lim, h)
    ensures Apart(h, lim.minGap * SECOND)
  {}

  lemma InSeconds(n: int, gap: int, seconds: int)
    requires n * (gap * SECOND) <= seconds * SECOND
    ensures n * gap <= seconds
  {
    assert n * (gap * SECOND) == (n * gap) * SECOND;
  }

  /** When a third window reaches into a span, the first and the third have no more than
      the daily limit in it. */
  lemma EndsHoldDaily(lim: Limits, h: History, from: int, seconds: int, first: set<nat>, last: set<nat>, k: nat)
    requires WindowsOk(h) && WholeStarts(h) && WholeGapped(lim, h) && JoinsLateAtMost(h, seconds * SECOND)
    requires lim.daily >= 1 && seconds <= (lim.daily - 1) * Gap(lim) + 1 && first != {} && last != {}
    requires first <= InEpoch(h, k) && first <= InSpan(h, from) && last <= InSpan(h, from) && AllFrom(h, last, k + 2)
    ensures |first| + |last| <= lim.daily
  {
    if lim.minGap < 0 {
      var a := Member(first);
      var d := Member(last);
      assert a in InSpan(h, from) && d in InSpan(h, from);
      ThirdWindowIsADayAway(h, seconds * SECOND, a, d);
      assert false;
    } else {
      WholeGapsAreApart(lim, h);
      FewAtBothEnds(h, from, lim.minGap * SECOND, SECOND, seconds * SECOND, first, last, k);
      InSeconds(|first| + |last| - 2, lim.minGap, seconds - 2);
      FewMeansLess(|first| + |last| - 2, lim.daily - 1, lim.minGap);
    }
  }

  lemma HarmlessSpan(lim: Limits, h: History, from: int, seconds: int)
    requires WindowsOk(h) && WholeStarts(h) && WholeGapped(lim, h) && JoinsLateAtMost(h, seconds * SECOND)
    requires lim.daily >= 1 && seconds <= (lim.daily - 1) * Gap(lim) + 1
    requires forall k: nat :: |InEpoch(h, k)| <= lim.daily
    ensures |InSpan(h, from)| <= 2 * lim.daily
  {
    if InSpan(h, from) != {} {
      var k, first, mid, last := SpanInThree(h, from);
      SubsetCard(first, InEpoch(h, k));
      SubsetCard(mid, InEpoch(h, k + 1));
      if last != {} {
        EndsHoldDaily(lim, h, from, seconds, first, last, k);
      }
    }
  }

  lemma GapAloneHolds(lim: Limits, h: History, from: int)
    requires WholeGapped(lim, h) && 2 * lim.daily * Gap(lim) >= DAY_SECONDS && InSpan(h, from) != {}
    ensures |InSpan(h, from)| <= 2 * lim.daily
  {
    WholeGapsAreApart(lim, h);
    assert lim.minGap > 0;
    GapAloneBounds(h, lim.minGap * SECOND, from);
    assert 2 * lim.daily * (lim.minGap * SECOND) == (2 * lim.daily * lim.minGap) * SECOND;
    FewMeansLess(|InSpan(h, from)| - 1, 2 * lim.daily, lim.minGap * SECOND);
  }

  /** On whole-second readings no later than (daily - 1) gaps and a second, any 24 hours
      hold at most twice the daily limit. */
  lemma SlidingDayHoldsTwiceTheLimit(lim: Limits, run: seq<PacingStep>, from: int, seconds: int)
    requires IsRun(lim, run) && WholeClock(run)
    requires LateAtMost(run, seconds * SECOND) && Harmless(lim, seconds)
    ensures |InSpan(After(run), from)| <= 2 * Max(lim.daily, 0)
  {
    var h := After(run);
    RunKeepsWindows(lim, run);
    JoinsAreApart(lim, run);
    WholeClockWholeStarts(run);
    LatenessIff(lim, run, seconds * SECOND);
    forall k: nat
      ensures |InEpoch(h, k)| <= Max(lim.daily, 0)
    {
      WindowHoldsDailyLimit(lim, run, k);
    }
    if InSpan(h, from) != {} {
      var i := Member(InSpan(h, from));
      assert i in InEpoch(h, h.joins[i].epoch);
      if 2 * lim.daily * Gap(lim) >= DAY_SECONDS {
        GapAloneHolds(lim, h, from);
      } else {
        HarmlessSpan(lim, h, from, seconds);
      }
    }
  }
}
