/** Runs that reach the limits of the pacing bounds on a clock with fractions of a second,
    which is the one the code reads. */
module FractionLimits {
  import opened Common
  import opened JoinPacing
  import opened SlidingDay
  import opened FractionDay
  import opened PacingLimits

  /** In a window's last second the daily limit holds nothing back. */
  lemma LastSecondJoin(lim: Limits, run: seq<PacingStep>, h: History, now: int, late: nat)
    requires Leads(lim, run, h, late, false) && h.window.start.Some?
    requires h.window.start.value + DAY - SECOND < now < h.window.start.value + DAY
    requires h.window.lastJoin.Some? ==> now - h.window.lastJoin.value >= FineGap(lim)
    ensures Leads(lim, run + [Join(now)], Joined(h, now), late, false)
  {
    JoinFits(lim, h.window, now);
    Extend(lim, run, h, Join(now), late, false);
  }

  // ---- One window -----------------------------------------------------------

  ghost predicate WindowHoldsOneMore(lim: Limits) {
    forall run, k: nat :: IsRun(lim, run) ==> JoinsInWindow(run, k) <= Max(lim.daily, 0) + 1
  }

  /** A microsecond apart, the day's joins, then two more in the window's last second. A
      reading from before the window is counted in it, so there is room for any limit. */
  lemma TwoMoreRun(lim: Limits) returns (run: seq<PacingStep>)
    requires lim.minGap <= 1
    ensures IsRun(lim, run) && JoinsInWindow(run, 0) == Max(lim.daily, 0) + 2
  {
    var n: nat := Max(lim.daily, 0);
    var t := DAY - n - 2;
    Extend(lim, [], Fresh(), Check(0), n + 2, false);
    var r0, h0 := [] + [Check(0)], Step(Fresh(), Check(0));
    SeriesRuns(lim, r0, h0, t, 1, n, n + 2, false);
    var r1, h1 := r0 + Series(t, 1, n), AfterSeries(h0, t, 1, n);
    LastSecondJoin(lim, r1, h1, DAY - 2, n + 2);
    var r2, h2 := r1 + [Join(DAY - 2)], Joined(h1, DAY - 2);
    LastSecondJoin(lim, r2, h2, DAY - 1, n + 2);
    run := r2 + [Join(DAY - 1)];
    RunKeepsWindows(lim, run);
  }

  /** With fractions of a second a window holds one join more than the limit exactly when
      the gap is at least two seconds, whatever the limit. */
  lemma OneMoreIff(lim: Limits)
    ensures WindowHoldsOneMore(lim) <==> lim.minGap >= 2
  {
    if lim.minGap >= 2 {
      forall run, k: nat | IsRun(lim, run)
        ensures JoinsInWindow(run, k) <= Max(lim.daily, 0) + 1
      {
        WindowHoldsDailyLimit(lim, run, k);
      }
    } else {
      var run := TwoMoreRun(lim);
    }
  }

  // ---- The sliding day ------------------------------------------------------

  /** The gap the runs below keep. */
  function KeptGap(lim: Limits): nat {
    Max(FineGap(lim), 0)
  }

  /** The day's joins, one that slips in at the window's end, and the next window's joins
      right behind it: one more than twice the limit, with no reading late. */
  lemma FullDays(lim: Limits, late: nat) returns (run: seq<PacingStep>, from: int)
    requires lim.daily >= 1 && 2 * lim.daily * KeptGap(lim) < DAY
    ensures IsRun(lim, run) && LateAtMost(run, late) && |InSpan(After(run), from)| == 2 * lim.daily + 1
  {
    var d, g := lim.daily, KeptGap(lim);
    var dg := d * g;
    assert (d - 1) * g == dg - g && 2 * d * g == 2 * dg;
    from := DAY - 1 - dg;
    var t := DAY - 1 + Max(g, 1);
    var h;
    run, h := WindowOfJoins(lim, [], Fresh(), 0, from, g, d, late, false);
    LastSecondJoin(lim, run, h, DAY - 1, late);
    run, h := run + [Join(DAY - 1)], Joined(h, DAY - 1);
    run, h := WindowOfJoins(lim, run, h, DAY, t, g, d, late, false);
    RecordsWithin(from, g, d, 0, from, from + DAY);
    RecordsWithin(t, g, d, 1, from, from + DAY);
    AllOfThem(h, from);
  }

  /** With no joins a day at all, one slips in at the end of each window. */
  lemma EmptyDays(lim: Limits, late: nat) returns (run: seq<PacingStep>, from: int)
    requires lim.daily <= 0
    ensures IsRun(lim, run) && LateAtMost(run, late)
    ensures |InSpan(After(run), from)| == if FineGap(lim) < DAY then 2 else 1
  {
    from := DAY - 1;
    Extend(lim, [], Fresh(), Check(0), late, false);
    var h := Step(Fresh(), Check(0));
    LastSecondJoin(lim, [] + [Check(0)], h, DAY - 1, late);
    run, h := [] + [Check(0)] + [Join(DAY - 1)], Joined(h, DAY - 1);
    if FineGap(lim) < DAY {
      Extend(lim, run, h, Check(DAY), late, false);
      run, h := run + [Check(DAY)], Step(h, Check(DAY));
      LastSecondJoin(lim, run, h, 2 * DAY - 2, late);
      run, h := run + [Join(2 * DAY - 2)], Joined(h, 2 * DAY - 2);
    }
    AllOfThem(h, from);
  }

  /** With a gap of a second or less, two slip in. */
  lemma TwoSlipIn(lim: Limits, late: nat) returns (run: seq<PacingStep>, from: int)
    requires lim.daily >= 1 && lim.minGap <= 1 && (2 * lim.daily + 1) * KeptGap(lim) < DAY
    ensures IsRun(lim, run) && LateAtMost(run, late) && |InSpan(After(run), from)| == 2 * lim.daily + 2
  {
    var d, g := lim.daily, KeptGap(lim);
    var dg := d * g;
    assert (d - 1) * g == dg - g && (2 * d + 1) * g == 2 * dg + g;
    from := DAY - 3 - dg + g;
    var h;
    run, h := WindowOfJoins(lim, [], Fresh(), 0, from, g, d, late, false);
    LastSecondJoin(lim, run, h, DAY - 2, late);
    run, h := run + [Join(DAY - 2)], Joined(h, DAY - 2);
    LastSecondJoin(lim, run, h, DAY - 1, late);
    run, h := run + [Join(DAY - 1)], Joined(h, DAY - 1);
    run, h := WindowOfJoins(lim, run, h, DAY, DAY, g, d, late, false);
    RecordsWithin(from, g, d, 0, from, from + DAY);
    RecordsWithin(DAY, g, d, 1, from, from + DAY);
    AllOfThem(h, from);
  }

  /** With readings late enough a third window's joins come into the day. */
  lemma ThirdWindow(lim: Limits, late: nat) returns (run: seq<PacingStep>, from: int)
    requires lim.daily >= 1 && lim.minGap >= 2 && (2 * lim.daily + 1) * FineGap(lim) < DAY
    requires late > lim.daily * FineGap(lim) + 1
    ensures IsRun(lim, run) && LateAtMost(run, late) && |InSpan(After(run), from)| == 2 * lim.daily + 2
  {
    var d, g := lim.daily, FineGap(lim);
    var dg := d * g;
    assert (d - 1) * g == dg - g && (2 * d + 1) * g == 2 * dg + g;
    Monotone(1, d, g);
    from := DAY - 1 - g;
    var t1, t2 := DAY - 1 + g, 2 * DAY - 2 - dg;
    var h;
    run, h := WindowOfJoins(lim, [], Fresh(), 0, from, g, 1, late, false);
    LastSecondJoin(lim, run, h, DAY - 1, late);
    run, h := run + [Join(DAY - 1)], Joined(h, DAY - 1);
    run, h := WindowOfJoins(lim, run, h, DAY, t1, g, d, late, false);
    run, h := WindowOfJoins(lim, run, h, 2 * DAY, t2, g, d, late, false);
    RecordsWithin(from, g, 1, 0, from, from + DAY);
    RecordsWithin(t1, g, d, 1, from, from + DAY);
    RecordsWithin(t2, g, d, 2, from, from + DAY);
    AllOfThem(h, from);
  }

  /** Every day of every run with readings this late holds at most so many joins. */
  ghost predicate DayHolds(lim: Limits, late: int, bound: int) {
    forall run, from :: IsRun(lim, run) && LateAtMost(run, late) ==> |InSpan(After(run), from)| <= bound
  }

  /** Twice the daily limit holds on the clock the code reads exactly when the gap alone
      keeps more out of a day; that readings come in order does not help. */
  lemma TwiceHoldsOnAnyClockIff(lim: Limits, late: nat)
    ensures DayHolds(lim, late, 2 * Max(lim.daily, 0)) <==> lim.daily >= 1 && 2 * lim.daily * FineGap(lim) >= DAY
  {
    if lim.daily <= 0 {
      var run, from := EmptyDays(lim, late);
    } else if 2 * lim.daily * FineGap(lim) >= DAY {
      forall run, from | IsRun(lim, run) && LateAtMost(run, late)
        ensures |InSpan(After(run), from)| <= 2 * lim.daily
      {
        FineGapAloneHolds(lim, run, from, 2 * lim.daily);
      }
    } else {
      var run, from := FullDays(lim, late);
    }
  }

  /** Twice the limit and one holds exactly when readings are late by at most `daily` gaps
      and a microsecond, or the gap alone keeps more out of a day. */
  lemma OneMoreADayIff(lim: Limits, late: nat)
    ensures DayHolds(lim, late, 2 * Max(lim.daily, 0) + 1) <==> HarmlessFraction(lim, late)
  {
    if HarmlessFraction(lim, late) {
      forall run, from | IsRun(lim, run) && LateAtMost(run, late)
        ensures |InSpan(After(run), from)| <= 2 * Max(lim.daily, 0) + 1
      {
        SlidingDayHoldsOneMore(lim, run, from, late);
      }
    } else if lim.daily <= 0 {
      var run, from := EmptyDays(lim, late);
    } else if lim.minGap <= 1 {
      var run, from := TwoSlipIn(lim, late);
    } else {
      var run, from := ThirdWindow(lim, late);
    }
  }

  /** For the shipped ten joins a day and fifteen minutes: not twice the limit, but one
      more, while no reading is late by more than ten gaps of 899 seconds and some
      microseconds. */
  lemma ShippedFractions(late: nat)
    ensures !DayHolds(Limits(900, 10), late, 20)
    ensures DayHolds(Limits(900, 10), late, 21) <==> late <= 8_990_000_011
  {
    TwiceHoldsOnAnyClockIff(Limits(900, 10), late);
    OneMoreADayIff(Limits(900, 10), late);
  }

  /** Twenty-one joins in one day, every reading in order. */
  lemma TwentyOneJoins() returns (run: seq<PacingStep>, from: int)
    ensures IsRun(Limits(900, 10), run) && InOrder(run) && |InSpan(After(run), from)| == 21
  {
    run, from := FullDays(Limits(900, 10), 0);
  }
}
