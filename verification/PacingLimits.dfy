/** Runs that reach the limits of the pacing bounds, which makes the bounds exact: how to
    build them, and those with whole-second readings. */
module PacingLimits {
  import opened Common
  import opened JoinPacing
  import opened SlidingDay
  import opened FractionDay

  // ---- Building runs --------------------------------------------------------

  /** A run that leads to h with readings at most so late; and with whole seconds, if asked. */
  ghost predicate Leads(lim: Limits, run: seq<PacingStep>, h: History, late: int, whole: bool) {
    IsRun(lim, run) && LateAtMost(run, late) && After(run) == h && (whole ==> WholeClock(run))
  }

  lemma Extend(lim: Limits, run: seq<PacingStep>, h: History, e: PacingStep, late: int, whole: bool)
    requires Leads(lim, run, h, late, whole) && Allowed(lim, h, e) && (whole ==> e.now % SECOND == 0)
    requires e.Join? ==> OnTime(AfterRefresh(h, e.now), e.now, late)
    ensures Leads(lim, run + [e], Step(h, e), late, whole)
  {
    assert (run + [e])[..|run|] == run;
  }

  /** n joins from t on, `gap` apart. */
  function Series(t: int, gap: int, n: nat): seq<PacingStep> {
    if n == 0 then [] else Series(t, gap, n - 1) + [Join(t + (n - 1) * gap)]
  }

  function Records(t: int, gap: int, n: nat, epoch: nat): seq<JoinRecord> {
    if n == 0 then [] else Records(t, gap, n - 1, epoch) + [JoinRecord(t + (n - 1) * gap, epoch)]
  }

  lemma {:induction false} RecordsAt(t: int, gap: int, n: nat, epoch: nat, i: nat)
    requires i < n && gap >= 0
    ensures |Records(t, gap, n, epoch)| == n
    ensures var r := Records(t, gap, n, epoch)[i]; r.epoch == epoch && t <= r.at <= t + (n - 1) * gap
  {
    if n > 1 {
      RecordsAt(t, gap, n - 1, epoch, if i < n - 1 then i else 0);
      assert (n - 1) * gap == (n - 2) * gap + gap;
      Monotone(0, n - 1, gap);
    }
  }

  /** Where a series may be joined in: a fresh window, the last join far enough back, and
      either room in the window or its last second. */
  predicate SeriesFits(lim: Limits, h: History, t: int, gap: int, n: nat, late: int) {
    && h.window.start.Some? && h.window.count == 0 && h.starts != [] && gap >= 0 && gap > (lim.minGap - 1) * SECOND
    && (h.window.lastJoin.Some? ==> t - h.window.lastJoin.value > (lim.minGap - 1) * SECOND)
    && t + (n - 1) * gap < h.window.start.value + DAY
    && (n <= lim.daily || t > h.window.start.value + DAY - SECOND)
    && h.window.start.value - t <= late
  }

  function AfterSeries(h: History, t: int, gap: int, n: nat): History {
    h.(window := h.window.(count := h.window.count + n,
                           lastJoin := if n == 0 then h.window.lastJoin else Some(t + (n - 1) * gap)),
       joins := h.joins + Records(t, gap, n, Epoch(h)))
  }

  lemma JoinFits(lim: Limits, w: Window, now: int)
    requires w.start.Some? && now < w.start.value + DAY
    requires w.lastJoin.Some? ==> now - w.lastJoin.value > (lim.minGap - 1) * SECOND
    requires w.count < lim.daily || now > w.start.value + DAY - SECOND
    ensures !WindowOver(w, now) && Wait(lim, w, now) == 0
  {}

  /** The last join of a series fits after the others. */
  lemma SeriesGrows(lim: Limits, h: History, t: int, gap: int, n: nat, late: int)
    requires SeriesFits(lim, h, t, gap, n, late) && n > 0
    ensures SeriesFits(lim, h, t, gap, n - 1, late)
    ensures var before, e := AfterSeries(h, t, gap, n - 1), Join(t + (n - 1) * gap);
            && Allowed(lim, before, e) && OnTime(AfterRefresh(before, e.now), e.now, late)
            && Step(before, e) == AfterSeries(h, t, gap, n)
  {
    var before, now := AfterSeries(h, t, gap, n - 1), t + (n - 1) * gap;
    assert now == t + (n - 2) * gap + gap;
    Monotone(0, n - 1, gap);
    JoinFits(lim, before.window, now);
    assert h.joins + Records(t, gap, n, Epoch(h)) == before.joins + [JoinRecord(now, Epoch(h))];
  }

  lemma {:induction false} SeriesRuns(lim: Limits, run: seq<PacingStep>, h: History, t: int, gap: int, n: nat,
                                      late: int, whole: bool)
    requires Leads(lim, run, h, late, whole) && SeriesFits(lim, h, t, gap, n, late)
    requires whole ==> t % SECOND == 0 && gap % SECOND == 0
    ensures Leads(lim, run + Series(t, gap, n), AfterSeries(h, t, gap, n), late, whole)
  {
    if n == 0 {
      NoSeries(run, h, t, gap);
    } else {
      SeriesGrows(lim, h, t, gap, n, late);
      SeriesRuns(lim, run, h, t, gap, n - 1, late, whole);
      MultipleIsWhole(t, gap, n - 1);
      var e := Join(t + (n - 1) * gap);
      Extend(lim, run + Series(t, gap, n - 1), AfterSeries(h, t, gap, n - 1), e, late, whole);
      SeriesEnds(run, t, gap, n);
    }
  }

  lemma NoSeries(run: seq<PacingStep>, h: History, t: int, gap: int)
    ensures run + Series(t, gap, 0) == run && AfterSeries(h, t, gap, 0) == h
  {
    assert h.joins + [] == h.joins;
  }

  lemma SeriesEnds(run: seq<PacingStep>, t: int, gap: int, n: nat)
    requires n > 0
    ensures run + Series(t, gap, n) == run + Series(t, gap, n - 1) + [Join(t + (n - 1) * gap)]
  {}

  lemma MultipleIsWhole(t: int, gap: int, n: int)
    ensures t % SECOND == 0 && gap % SECOND == 0 ==> (t + n * gap) % SECOND == 0
  {
    if t % SECOND == 0 && gap % SECOND == 0 {
      assert gap == (gap / SECOND) * SECOND && t == (t / SECOND) * SECOND;
      assert t + n * gap == (t / SECOND + n * (gap / SECOND)) * SECOND;
      ModOfMultiple(t / SECOND + n * (gap / SECOND));
    }
  }

  lemma ModOfMultiple(x: int)
    ensures (x * SECOND) % SECOND == 0
  {}

  // ---- The sliding day ------------------------------------------------------

  /** A check opens a window and n joins follow in it, `gap` microseconds apart. */
  lemma WindowOfJoins(lim: Limits, run: seq<PacingStep>, h: History, start: int, t: int, gap: nat, n: nat, late: int,
                      whole: bool)
      returns (run': seq<PacingStep>, h': History)
    requires Leads(lim, run, h, late, whole) && WindowOver(h.window, start) && gap >= FineGap(lim)
    requires 1 <= n <= lim.daily && (whole ==> start % SECOND == 0 && t % SECOND == 0 && gap % SECOND == 0)
    requires h.window.lastJoin.Some? ==> t - h.window.lastJoin.value >= gap
    requires t + (n - 1) * gap < start + DAY && start - t <= late
    ensures Leads(lim, run', h', late, whole)
    ensures h' == History(Window(Some(start), n, Some(t + (n - 1) * gap)), h.starts + [start],
                          h.joins + Records(t, gap, n, |h.starts|))
  {
    Extend(lim, run, h, Check(start), late, whole);
    var empty := Step(h, Check(start));
    SeriesRuns(lim, run + [Check(start)], empty, t, gap, n, late, whole);
    run', h' := run + [Check(start)] + Series(t, gap, n), AfterSeries(empty, t, gap, n);
  }

  /** Where the three groups of the worst day start. */
  function WorstTimes(lim: Limits): (int, int, int) {
    var gap := lim.minGap * SECOND;
    (DAY - SECOND, DAY - SECOND + gap, 2 * DAY - 2 * SECOND - (lim.daily - 1) * gap)
  }

  function WorstJoins(lim: Limits): seq<JoinRecord>
    requires lim.daily >= 0
  {
    var (t0, t1, t2) := WorstTimes(lim);
    var gap := lim.minGap * SECOND;
    Records(t0, gap, 1, 0) + Records(t1, gap, lim.daily, 1) + Records(t2, gap, lim.daily, 2)
  }

  /** The run that fills a day: one join in the last second of a window, a full window
      right behind it, and a full window of joins whose readings are as late as the day
      needs them. */
  lemma WorstRun(lim: Limits, seconds: int) returns (run: seq<PacingStep>, h: History)
    requires lim.minGap >= 0 && !Harmless(lim, seconds)
    ensures Leads(lim, run, h, seconds * SECOND, true) && h.joins == WorstJoins(lim)
  {
    var gap, late := lim.minGap * SECOND, seconds * SECOND;
    var (t0, t1, t2) := WorstTimes(lim);
    RoomForAll(lim, seconds);
    ModOfMultiple(lim.minGap);
    run, h := WindowOfJoins(lim, [], Fresh(), 0, t0, gap, 1, late, true);
    run, h := WindowOfJoins(lim, run, h, DAY, t1, gap, lim.daily, late, true);
    run, h := WindowOfJoins(lim, run, h, 2 * DAY, t2, gap, lim.daily, late, true);
    assert [] + Records(t0, gap, 1, 0) == Records(t0, gap, 1, 0);
  }

  /** When a lateness is not harmless, the three groups of joins fit into one day. */
  lemma RoomForAll(lim: Limits, seconds: int)
    requires lim.minGap >= 0 && !Harmless(lim, seconds)
    ensures lim.daily >= 1 && seconds >= 2
    ensures var gap, (t0, t1, t2) := lim.minGap * SECOND, WorstTimes(lim);
            && gap >= 0 && t0 % SECOND == 0 && t1 % SECOND == 0 && t2 % SECOND == 0
            && t1 - t0 >= gap && DAY - t1 <= seconds * SECOND && t1 + (lim.daily - 1) * gap < 2 * DAY - SECOND
            && t2 - (t1 + (lim.daily - 1) * gap) >= gap && 2 * DAY - t2 <= seconds * SECOND
            && t2 + (lim.daily - 1) * gap < 2 * DAY - SECOND
  {
    var gap, d := lim.minGap * SECOND, lim.daily;
    ModOfMultiple(lim.minGap);
    ModOfMultiple((d - 1) * lim.minGap);
    Monotone(0, d - 1, gap);
    Monotone(0, d - 1, lim.minGap);
    assert (d - 1) * gap == ((d - 1) * lim.minGap) * SECOND;
    assert d * gap == (d - 1) * gap + gap;
    assert 2 * (d * gap) == (2 * d * lim.minGap) * SECOND;
  }

  lemma {:induction false} RecordsCount(t: int, gap: int, n: nat, epoch: nat)
    ensures |Records(t, gap, n, epoch)| == n
  {
    if n > 0 {
      RecordsCount(t, gap, n - 1, epoch);
    }
  }

  predicate AllWithin(joins: seq<JoinRecord>, from: int, to: int) {
    forall i :: 0 <= i < |joins| ==> from <= joins[i].at < to
  }

  lemma RecordsWithin(t: int, gap: int, n: nat, epoch: nat, from: int, to: int)
    requires gap >= 0 && from <= t && t + (n - 1) * gap < to
    ensures AllWithin(Records(t, gap, n, epoch), from, to) && |Records(t, gap, n, epoch)| == n
  {
    RecordsCount(t, gap, n, epoch);
    forall i: nat | i < n
      ensures from <= Records(t, gap, n, epoch)[i].at < to
    {
      RecordsAt(t, gap, n, epoch, i);
    }
  }

  /** All its joins lie in the day that begins with the first of them. */
  lemma WorstDay(lim: Limits, seconds: int, h: History)
    requires lim.minGap >= 0 && !Harmless(lim, seconds) && h.joins == WorstJoins(lim)
    ensures |InSpan(h, DAY - SECOND)| == 2 * lim.daily + 1
  {
    var gap := lim.minGap * SECOND;
    var (t0, t1, t2) := WorstTimes(lim);
    var from, to := DAY - SECOND, 2 * DAY - SECOND;
    RoomForAll(lim, seconds);
    RecordsWithin(t0, gap, 1, 0, from, to);
    RecordsWithin(t1, gap, lim.daily, 1, from, to);
    RecordsWithin(t2, gap, lim.daily, 2, from, to);
    AllOfThem(h, from);
  }

  lemma AllOfThem(h: History, from: int)
    requires AllWithin(h.joins, from, from + DAY)
    ensures |InSpan(h, from)| == |h.joins|
  {
    assert InSpan(h, from) == Interval(0, |h.joins|);
  }

  /** Twice the daily limit holds for every day of every run with whole-second readings
      this late. */
  ghost predicate TwiceHolds(lim: Limits, seconds: int) {
    forall run, from :: IsRun(lim, run) && WholeClock(run) && LateAtMost(run, seconds * SECOND) ==>
      |InSpan(After(run), from)| <= 2 * Max(lim.daily, 0)
  }

  /** What a gap of no seconds lets through, a negative one lets through too. */
  lemma {:induction false} NegativeGapAllowsMore(lim: Limits, run: seq<PacingStep>)
    requires IsRun(Limits(Gap(lim), lim.daily), run)
    ensures IsRun(lim, run)
  {
    if run != [] {
      NegativeGapAllowsMore(lim, run[..|run| - 1]);
    }
  }

  /** On whole-second readings any 24 hours hold at most twice the daily limit exactly when
      readings are late by at most (daily - 1) gaps and a second, or the gap alone keeps
      more joins out of a day. */
  lemma TwiceHoldsIff(lim: Limits, seconds: int)
    ensures TwiceHolds(lim, seconds) <==> Harmless(lim, seconds)
  {
    if Harmless(lim, seconds) {
      forall run, from | IsRun(lim, run) && WholeClock(run) && LateAtMost(run, seconds * SECOND)
        ensures |InSpan(After(run), from)| <= 2 * Max(lim.daily, 0)
      {
        SlidingDayHoldsTwiceTheLimit(lim, run, from, seconds);
      }
    } else {
      var gapped := Limits(Gap(lim), lim.daily);
      var run, h := WorstRun(gapped, seconds);
      WorstDay(gapped, seconds, h);
      NegativeGapAllowsMore(lim, run);
      assert |InSpan(After(run), DAY - SECOND)| > 2 * Max(lim.daily, 0);
    }
  }

  /** For the shipped settings of ten joins a day and fifteen minutes between them: two
      hours, fifteen minutes and a second. For one join a day: one second. */
  lemma ShippedSettings(seconds: int)
    ensures TwiceHolds(Limits(900, 10), seconds) <==> seconds <= 8101
    ensures TwiceHolds(Limits(900, 1), seconds) <==> seconds <= 1
  {
    TwiceHoldsIff(Limits(900, 10), seconds);
    TwiceHoldsIff(Limits(900, 1), seconds);
  }

  /** One join a day, readings two seconds late: three joins in a day. */
  lemma TwoSecondsBreakTwice() returns (run: seq<PacingStep>)
    ensures IsRun(Limits(900, 1), run) && WholeClock(run) && LateAtMost(run, 2 * SECOND)
    ensures |InSpan(After(run), DAY - SECOND)| == 3
  {
    var h;
    run, h := WorstRun(Limits(900, 1), 2);
    WorstDay(Limits(900, 1), 2, h);
  }
}
