/** The per-account join limiter: a minimum gap and a tumbling 24-hour window.
    Times are microseconds, because the waits are truncated to whole seconds. */
module JoinPacing {
  import opened Common

  const SECOND := 1_000_000
  const DAY := 86_400 * SECOND

  /** The limits from the settings: seconds between joins, joins per window. */
  datatype Limits = Limits(minGap: int, daily: int)

  datatype Window = Window(start: Option<int>, count: int, lastJoin: Option<int>)

  /** int() of a duration: whole seconds, truncated toward zero. */
  function WholeSeconds(micros: int): int {
    if micros < 0 then -((-micros) / SECOND) else micros / SECOND
  }

  predicate WindowOver(w: Window, now: int) {
    w.start.None? || now - w.start.value >= DAY
  }

  function Refreshed(w: Window, now: int): Window {
    if WindowOver(w, now) then Window(Some(now), 0, w.lastJoin) else w
  }

  /** Seconds until the account may join, in an already refreshed window. */
  function Wait(lim: Limits, w: Window, now: int): int {
    var gapWait :=
      if w.lastJoin.Some? && now - w.lastJoin.value < lim.minGap * SECOND
      then Max(0, WholeSeconds(lim.minGap * SECOND - (now - w.lastJoin.value))) else 0;
    var dayWait :=
      if w.count >= lim.daily && w.start.Some?
      then Max(gapWait, WholeSeconds(w.start.value + DAY - now)) else gapWait;
    Max(dayWait, 0)
  }

  /** The account's pacing fields, as the onboarding job updates them. */
  class PacedAccount {
    var joinWindowStart: Option<int>
    var joinWindowCount: int
    var lastJoinAt: Option<int>

    function Fields(): Window
      reads this
    {
      Window(joinWindowStart, joinWindowCount, lastJoinAt)
    }

    constructor ()
      ensures Fields() == Window(None, 0, None)
    {
      joinWindowStart, joinWindowCount, lastJoinAt := None, 0, None;
    }

    method RefreshJoinWindow(now: int)
      modifies this
      ensures Fields() == Refreshed(old(Fields()), now)
    {
      if joinWindowStart.None? || now - joinWindowStart.value >= DAY {
        joinWindowStart := Some(now);
        joinWindowCount := 0;
      }
    }

    method JoinPacingWaitSeconds(lim: Limits, now: int) returns (wait: int)
      modifies this
      ensures Fields() == Refreshed(old(Fields()), now)
      ensures wait == Wait(lim, Fields(), now) && wait >= 0
    {
      RefreshJoinWindow(now);
      wait := 0;
      if lastJoinAt.Some? {
        var since := now - lastJoinAt.value;
        if since < lim.minGap * SECOND {
          wait := Max(wait, WholeSeconds(lim.minGap * SECOND - since));
        }
      }
      if joinWindowCount >= lim.daily && joinWindowStart.Some? {
        var untilReset := joinWindowStart.value + DAY - now;
        wait := Max(wait, WholeSeconds(untilReset));
      }
      wait := Max(wait, 0);
    }

    method RegisterJoin(now: int)
      modifies this
      ensures var w := Refreshed(old(Fields()), now);
              Fields() == Window(w.start, w.count + 1, Some(now))
    {
      RefreshJoinWindow(now);
      joinWindowCount := joinWindowCount + 1;
      lastJoinAt := Some(now);
    }
  }

  // ---- Runs -----------------------------------------------------------------

  /** A pacing check that leads to no join, or one that does; the clock readings may
      come in any order, because a job reads the clock before it gets the row lock. */
  datatype PacingStep = Check(now: int) | Join(now: int)

  datatype JoinRecord = JoinRecord(at: int, epoch: nat)

  /** starts: the start of every window so far, the last one current. */
  datatype History = History(window: Window, starts: seq<int>, joins: seq<JoinRecord>)

  function Fresh(): History {
    History(Window(None, 0, None), [], [])
  }

  function AfterRefresh(h: History, now: int): History {
    if WindowOver(h.window, now) then h.(window := Refreshed(h.window, now), starts := h.starts + [now]) else h
  }

  predicate Allowed(lim: Limits, h: History, e: PacingStep) {
    e.Join? ==> Wait(lim, AfterRefresh(h, e.now).window, e.now) == 0
  }

  function Epoch(h: History): nat {
    if h.starts == [] then 0 else |h.starts| - 1
  }

  /** A join recorded in the current window. */
  function Joined(h: History, now: int): History {
    h.(window := h.window.(count := h.window.count + 1, lastJoin := Some(now)),
       joins := h.joins + [JoinRecord(now, Epoch(h))])
  }

  function Step(h: History, e: PacingStep): History {
    var h1 := AfterRefresh(h, e.now);
    if e.Check? then h1 else Joined(h1, e.now)
  }

  predicate IsRun(lim: Limits, run: seq<PacingStep>) {
    run == [] || (IsRun(lim, run[..|run| - 1]) && Allowed(lim, After(run[..|run| - 1]), run[|run| - 1]))
  }

  function After(run: seq<PacingStep>): History {
    if run == [] then Fresh() else Step(After(run[..|run| - 1]), run[|run| - 1])
  }

  predicate WholeClock(run: seq<PacingStep>) {
    forall i :: 0 <= i < |run| ==> run[i].now % SECOND == 0
  }

  /** Every join's reading is at most `late` microseconds before the start of the window
      it finds. This is what a caller can check before it joins. */
  predicate LateAtMost(run: seq<PacingStep>, late: int) {
    run == [] ||
    (LateAtMost(run[..|run| - 1], late) &&
     (run[|run| - 1].Join? ==>
        OnTime(AfterRefresh(After(run[..|run| - 1]), run[|run| - 1].now), run[|run| - 1].now, late)))
  }

  predicate OnTime(h: History, now: int, late: int) {
    h.window.start.Some? ==> h.window.start.value - now <= late
  }

  /** No join is counted in a window that starts after it. */
  predicate InOrder(run: seq<PacingStep>) {
    LateAtMost(run, 0)
  }

  predicate ClockNeverGoesBack(run: seq<PacingStep>) {
    forall i, j :: 0 <= i < j < |run| ==> run[i].now <= run[j].now
  }

  // ---- Gaps -----------------------------------------------------------------

  /** Exactly when the gap lets a join through: up to a second early. */
  lemma GapWaitIff(lim: Limits, w: Window, now: int)
    requires w.lastJoin.Some? && w.count < lim.daily
    ensures Wait(lim, w, now) == 0 <==> lim.minGap * SECOND - (now - w.lastJoin.value) < SECOND
  {}

  /** The wait is exact: from some instant in its last second on, and not before, the
      limiter lets a join through, a new window's start included. */
  lemma WaitIsExact(lim: Limits, w: Window, now: int) returns (free: int)
    requires !WindowOver(w, now) && lim.daily >= 1 && Wait(lim, w, now) > 0
    ensures now + (Wait(lim, w, now) - 1) * SECOND < free <= now + Wait(lim, w, now) * SECOND
    ensures forall t :: t >= now ==> (Wait(lim, Refreshed(w, t), t) == 0 <==> t >= free)
  {
    var byGap := if w.lastJoin.Some? then w.lastJoin.value + (lim.minGap - 1) * SECOND + 1 else now;
    var byCount := if w.count >= lim.daily then w.start.value + DAY - SECOND + 1 else now;
    free := Max(byGap, byCount);
  }

  /** What it amounts to without a window limit: the rest of the gap in whole seconds. */
  lemma GapWaitIs(lim: Limits, w: Window, now: int, seconds: nat)
    requires w.lastJoin.Some? && w.count < lim.daily
    ensures Wait(lim, w, now) >= seconds <==>
              seconds == 0 || w.lastJoin.value + lim.minGap * SECOND - now >= seconds * SECOND
  {}

  /** With no joins allowed, the end of a window only starts another day's wait. */
  lemma NoLimitNeverFree(lim: Limits, w: Window, t: int)
    requires w.start.Some? && lim.daily <= 0 && t >= w.start.value + DAY
    ensures Wait(lim, Refreshed(w, t), t) >= 86_400
  {}

  predicate Gapped(lim: Limits, h: History) {
    && (h.window.lastJoin == if h.joins == [] then None else Some(h.joins[|h.joins| - 1].at))
    && forall i :: 0 <= i < |h.joins| - 1 ==> h.joins[i + 1].at - h.joins[i].at > (lim.minGap - 1) * SECOND
  }

  predicate WholeGapped(lim: Limits, h: History) {
    && (forall i :: 0 <= i < |h.joins| ==> h.joins[i].at % SECOND == 0)
    && (forall i :: 0 <= i < |h.joins| - 1 ==> h.joins[i + 1].at - h.joins[i].at >= lim.minGap * SECOND)
  }

  lemma StepKeepsGapped(lim: Limits, h: History, e: PacingStep)
    requires Gapped(lim, h) && Allowed(lim, h, e)
    ensures Gapped(lim, Step(h, e))
  {
    var h1 := AfterRefresh(h, e.now);
    if e.Join? && h1.window.lastJoin.Some? && e.now - h1.window.lastJoin.value < lim.minGap * SECOND {
      assert WholeSeconds(lim.minGap * SECOND - (e.now - h1.window.lastJoin.value)) <= 0;
    }
  }

  /** Recorded joins are more than (minGap - 1) seconds apart in every run, and at
      least minGap apart when the clock readings are whole seconds. */
  lemma {:induction false} JoinsAreApart(lim: Limits, run: seq<PacingStep>)
    requires IsRun(lim, run)
    ensures Gapped(lim, After(run))
    ensures WholeClock(run) ==> WholeGapped(lim, After(run))
  {
    if run != [] {
      var init, e := run[..|run| - 1], run[|run| - 1];
      JoinsAreApart(lim, init);
      StepKeepsGapped(lim, After(init), e);
      if WholeClock(run) {
        assert forall i :: 0 <= i < |init| ==> init[i] == run[i];
        var joins := After(init).joins;
        if e.Join? && joins != [] {
          WholeDifference(e.now, joins[|joins| - 1].at, lim.minGap);
        }
      }
    }
  }

  lemma WholeDifference(a: int, b: int, n: int)
    requires a % SECOND == 0 && b % SECOND == 0 && a - b > (n - 1) * SECOND
    ensures a - b >= n * SECOND
  {}

  lemma MoreThanNothingIsASecond(a: int, b: int)
    ensures a % SECOND == 0 && b % SECOND == 0 && a > b ==> a - b >= SECOND
  {}

  /** The second really is lost: 899 and a half seconds pass for a gap of 900. */
  lemma EarlyJoinHappens()
    ensures var run := [Join(0), Join(899 * SECOND + SECOND / 2)];
            IsRun(Limits(900, 10), run) && |After(run).joins| == 2
  {
    var lim, run := Limits(900, 10), [Join(0), Join(899 * SECOND + SECOND / 2)];
    assert run[..1] == [Join(0)] && [Join(0)][..0] == [];
    assert IsRun(lim, [Join(0)]) && After([Join(0)]) == History(Window(Some(0), 1, Some(0)), [0], [JoinRecord(0, 0)]);
    assert run == [Join(0)] + [run[1]];
    assert After(run) == Step(After([Join(0)]), run[1]);
  }

  // ---- Windows --------------------------------------------------------------

  function InEpoch(h: History, epoch: nat): set<nat> {
    set i: nat | i < |h.joins| && h.joins[i].epoch == epoch
  }

  /** The window's own count is the number of joins of the current window; windows
      start a day or more apart; joins fall before their window's end. */
  predicate WindowsOk(h: History) {
    && (h.window.start == if h.starts == [] then None else Some(h.starts[|h.starts| - 1]))
    && h.window.count == |InEpoch(h, Epoch(h))|
    && (forall k :: 0 <= k < |h.starts| - 1 ==> h.starts[k + 1] - h.starts[k] >= DAY)
    && (forall i :: 0 <= i < |h.joins| ==>
          h.joins[i].epoch < |h.starts| && h.joins[i].at < h.starts[h.joins[i].epoch] + DAY)
  }

  lemma StepKeepsWindows(h: History, e: PacingStep)
    requires WindowsOk(h)
    ensures WindowsOk(Step(h, e))
  {
    RefreshKeepsWindows(h, e.now);
    if e.Join? {
      JoinKeepsWindows(AfterRefresh(h, e.now), e.now);
    }
  }

  lemma JoinKeepsWindows(h: History, now: int)
    requires WindowsOk(h) && h.starts != [] && now < h.starts[|h.starts| - 1] + DAY
    ensures WindowsOk(Joined(h, now))
  {
    JoinedIsCounted(h, now);
  }

  lemma JoinedIsCounted(h: History, now: int)
    ensures |InEpoch(Joined(h, now), Epoch(h))| == |InEpoch(h, Epoch(h))| + 1
  {
    assert InEpoch(Joined(h, now), Epoch(h)) == InEpoch(h, Epoch(h)) + {|h.joins|};
  }

  lemma RefreshKeepsWindows(h: History, now: int)
    requires WindowsOk(h)
    ensures WindowsOk(AfterRefresh(h, now))
  {
    var h1 := AfterRefresh(h, now);
    if h1 != h {
      assert InEpoch(h1, Epoch(h1)) == {};
    }
  }

  /** Joins per window: the daily limit, plus one that slips into the last second. */
  predicate EpochsBounded(lim: Limits, h: History) {
    && (forall k: nat :: k < Epoch(h) ==> |InEpoch(h, k)| <= Max(lim.daily, 0) + 1)
    && (h.window.count <= Max(lim.daily, 0) ||
        (h.window.count == Max(lim.daily, 0) + 1 && h.window.lastJoin.Some? && h.window.start.Some?
         && h.window.lastJoin.value > h.window.start.value + DAY - SECOND))
  }

  predicate WholeEpochsBounded(lim: Limits, h: History) {
    && (forall k: nat :: k < Epoch(h) ==> |InEpoch(h, k)| <= Max(lim.daily, 0))
    && h.window.count <= Max(lim.daily, 0)
    && (h.window.start.Some? ==> h.window.start.value % SECOND == 0)
  }

  lemma OlderEpochsStay(h: History, e: PacingStep, k: nat)
    requires WindowsOk(h) && k < Epoch(Step(h, e))
    ensures InEpoch(Step(h, e), k) == InEpoch(h, k)
  {
    var h1, h2 := AfterRefresh(h, e.now), Step(h, e);
    assert forall i: nat :: i < |h.joins| ==> h2.joins[i] == h.joins[i];
  }

  lemma StepKeepsEpochsBounded(lim: Limits, h: History, e: PacingStep)
    requires WindowsOk(h) && EpochsBounded(lim, h) && Allowed(lim, h, e) && lim.minGap >= 2
    ensures EpochsBounded(lim, Step(h, e))
  {
    forall k: nat | k < Epoch(Step(h, e))
      ensures |InEpoch(Step(h, e), k)| <= Max(lim.daily, 0) + 1
    {
      OlderEpochsStay(h, e, k);
    }
  }

  lemma StepKeepsWholeEpochsBounded(lim: Limits, h: History, e: PacingStep)
    requires WindowsOk(h) && WholeEpochsBounded(lim, h) && Allowed(lim, h, e) && e.now % SECOND == 0
    ensures WholeEpochsBounded(lim, Step(h, e))
  {
    forall k: nat | k < Epoch(Step(h, e))
      ensures |InEpoch(Step(h, e), k)| <= Max(lim.daily, 0)
    {
      OlderEpochsStay(h, e, k);
    }
    MoreThanNothingIsASecond(AfterRefresh(h, e.now).window.start.value + DAY, e.now);
  }

  /** Joins in window k of a run. */
  function JoinsInWindow(run: seq<PacingStep>, k: nat): nat {
    |InEpoch(After(run), k)|
  }

  lemma {:induction false} RunKeepsWindows(lim: Limits, run: seq<PacingStep>)
    requires IsRun(lim, run)
    ensures WindowsOk(After(run))
  {
    if run != [] {
      RunKeepsWindows(lim, run[..|run| - 1]);
      StepKeepsWindows(After(run[..|run| - 1]), run[|run| - 1]);
    } else {
      assert InEpoch(Fresh(), 0) == {};
    }
  }

  lemma {:induction false} RunKeepsEpochsBounded(lim: Limits, run: seq<PacingStep>)
    requires IsRun(lim, run) && lim.minGap >= 2
    ensures EpochsBounded(lim, After(run))
  {
    if run != [] {
      RunKeepsEpochsBounded(lim, run[..|run| - 1]);
      RunKeepsWindows(lim, run[..|run| - 1]);
      StepKeepsEpochsBounded(lim, After(run[..|run| - 1]), run[|run| - 1]);
    }
  }

  lemma {:induction false} RunKeepsWholeEpochsBounded(lim: Limits, run: seq<PacingStep>)
    requires IsRun(lim, run) && WholeClock(run)
    ensures WholeEpochsBounded(lim, After(run))
  {
    if run != [] {
      var init, e := run[..|run| - 1], run[|run| - 1];
      assert forall i :: 0 <= i < |init| ==> init[i] == run[i];
      RunKeepsWholeEpochsBounded(lim, init);
      RunKeepsWindows(lim, init);
      StepKeepsWholeEpochsBounded(lim, After(init), e);
    }
  }

  /** Every window of every run holds at most the daily limit on whole-second clocks,
      and at most one more on any clock when the gap is at least two seconds. */
  lemma WindowHoldsDailyLimit(lim: Limits, run: seq<PacingStep>, k: nat)
    requires IsRun(lim, run)
    ensures WholeClock(run) ==> JoinsInWindow(run, k) <= Max(lim.daily, 0)
    ensures lim.minGap >= 2 ==> JoinsInWindow(run, k) <= Max(lim.daily, 0) + 1
  {
    RunKeepsWindows(lim, run);
    if WholeClock(run) {
      RunKeepsWholeEpochsBounded(lim, run);
    }
    if lim.minGap >= 2 {
      RunKeepsEpochsBounded(lim, run);
    }
    var h := After(run);
    if k > Epoch(h) {
      assert InEpoch(h, k) == {};
    }
  }

  // ---- Order of the readings ------------------------------------------------

  /** A clock that never goes back is in order. */
  lemma {:induction false} MonotoneClockIsInOrder(lim: Limits, run: seq<PacingStep>)
    requires IsRun(lim, run) && ClockNeverGoesBack(run)
    ensures InOrder(run)
    ensures After(run).window.start.Some? ==>
              run != [] && After(run).window.start.value <= run[|run| - 1].now
  {
    if run != [] {
      var init := run[..|run| - 1];
      assert forall i :: 0 <= i < |init| ==> init[i] == run[i];
      MonotoneClockIsInOrder(lim, init);
    }
  }

  lemma {:induction false} StartsAreDaysApart(h: History, i: nat, j: nat)
    requires WindowsOk(h) && i <= j < |h.starts|
    ensures h.starts[j] - h.starts[i] >= (j - i) * DAY
    decreases j
  {
    if i < j {
      StartsAreDaysApart(h, i, j - 1);
    }
  }
}
