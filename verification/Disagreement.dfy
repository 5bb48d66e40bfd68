// Histories on which the online dispatcher and the batch schedule both run and differ: the
// old ATH is touched while the crash is still running, or only within the tolerance.
module Disagreement {
  import opened Common
  import opened Robust
  import opened Dispatcher
  import opened FinalSchedule
  import opened Timeline
  import opened ClosedForm
  import opened Refinement
  import RT = RecoveryTables
  import SC = SourceCompiler

  // A peak of 100, a crash to 60, one close p that hands off, then q for ever.
  function History(p: real, q: real, m: nat): seq<real> {
    [100.0, 60.0, p] + seq(m, _ => q)
  }

  const ENTRY := SC.SourceEvent(1, SC.EntryOrScale, 1, 2, 0, 100.0, 0.40, 30)

  function TheCycle(p: real): Cycle
    requires p > 0.0
  {
    SC.SourceCycle(1, 0, 100.0, [ENTRY, SC.SourceEvent(1, SC.HandoffEvent, 2, 3, 0, 100.0, DrawdownFraction(p, 100.0), 0)], None)
  }

  const HANDED := RobustView(PostHandoff, Some(100.0), Some(60.0), 0)

  const CRASHED := RobustView(Crash, Some(100.0), Some(60.0), 30)

  lemma FirstRows(p: real, n: nat)
    requires 82.0 <= p && n > 3
    ensures SC.Step(SC.START, 0, 100.0, n) ==
            Ok(SC.Compiler(RobustView(Normal, Some(100.0), None, 0), Some((0, 100.0)), None, [], 0))
    ensures SC.Step(SC.Compiler(RobustView(Normal, Some(100.0), None, 0), Some((0, 100.0)), None, [], 0), 1, 60.0, n) ==
            Ok(SC.Compiler(CRASHED, Some((0, 100.0)), Some(TheCycle(p).(events := [ENTRY])), [], 1))
  {
    assert DrawdownFraction(100.0, 100.0) == 0.0;
    assert DrawdownFraction(60.0, 100.0) == 0.40;
    assert LadderTarget(0.40) == 30;
    var st := SC.Compiler(RobustView(Normal, Some(100.0), None, 0), Some((0, 100.0)), None, [], 0);
    assert Observe(st.robust, 60.0) == (CRASHED, Decision(Crash, 30, Rotate));
    var e := SC.StepOnRotate(st, 1, 60.0, n);
    assert e == ENTRY;
    assert [] + [ENTRY] == [ENTRY];
  }

  lemma HandoffRow(p: real, n: nat)
    requires 82.0 <= p && n > 3
    ensures var r := SC.Step(SC.Compiler(CRASHED, Some((0, 100.0)), Some(TheCycle(p).(events := [ENTRY])), [], 1), 2, p, n);
            r.Ok? && Waits(r.value, p)
  {
    hide DrawdownFraction, LadderTarget, RecoveryFraction;
    HandoffReached(p, 100.0, 60.0);
    LadderReached(p, 100.0);
    assert LadderTarget(DrawdownFraction(p, 100.0)) <= 0 by { NoRung(p); }
    var st := SC.Compiler(CRASHED, Some((0, 100.0)), Some(TheCycle(p).(events := [ENTRY])), [], 1);
    var e := SC.StepOnHandoff(st, 2, p, n);
    assert [ENTRY] + [e] == TheCycle(p).events;
  }

  lemma NoRung(p: real)
    requires 82.0 <= p
    ensures LadderTarget(DrawdownFraction(p, 100.0)) <= 0
  {
    LadderReached(p, 100.0);
    assert LadderTarget(DrawdownFraction(p, 100.0)) >= 0;
  }

  ghost predicate Waits(st: SC.Compiler, p: real)
    requires p > 0.0
  {
    st.robust == HANDED && st.active == Some(TheCycle(p)) && st.completed == []
  }

  lemma {:induction false} FoldIs(p: real, q: real, m: nat, t: nat)
    requires 82.0 <= p && 0.0 < q < 100.0 && m > 0 && 3 <= t <= m + 3
    ensures var closes := History(p, q, m);
            && SC.PositiveCloses(closes) && |closes| == m + 3
            && SC.Fold(closes, |closes|, t).Ok? && Waits(SC.Fold(closes, |closes|, t).value, p)
  {
    hide DrawdownFraction;
    var closes := History(p, q, m);
    var n := |closes|;
    if t > 3 {
      FoldIs(p, q, m, t - 1);
      assert closes[t - 1] == q;
    } else {
      assert closes[0] == 100.0 && closes[1] == 60.0 && closes[2] == p;
      FirstRows(p, n);
      HandoffRow(p, n);
      assert SC.Fold(closes, n, 0) == Ok(SC.START);
      assert SC.Fold(closes, n, 1) == SC.Step(SC.START, 0, 100.0, n);
      SC.FoldNext(closes, n, 1);
      SC.FoldNext(closes, n, 2);
    }
  }

  // The compiler sees a cycle that never recovers; the dispatcher saw it recover at session
  // 2 or 3, before its entry at session 42.
  lemma OneSidedCut(p: real, q: real, m: nat)
    requires 82.0 <= p && 0.0 < q < 100.0 && m >= 418
    requires p + RT.TOL >= 100.0 || q + RT.TOL >= 100.0
    ensures var closes := History(p, q, m);
            && SC.SourceCycles(closes) == Ok([TheCycle(p)])
            && SignalsPrecedeRecovery([TheCycle(p)], closes) && Recovery(TheCycle(p), closes) <= 3
  {
    var closes := History(p, q, m);
    FoldIs(p, q, m, m + 3);
    var c := TheCycle(p);
    assert SC.Cycles(SC.Fold(closes, |closes|, |closes|).value) == [c];
    assert closes[1] == 60.0 && closes[2] == p && closes[3] == q;
    assert SC.First(c) == 1;
    assert SC.Ladder(c) == [ENTRY];
    assert Recovery(c, closes) > 1;
    assert Recovery(c, closes) <= 3;
  }

  // With closes that stay clearly below the old ATH, both buy at session 42 and sell at 420.
  lemma TheyAgree(p: real, q: real, m: nat)
    requires 82.0 <= p && p + RT.TOL < 100.0 && 0.0 < q && q + RT.TOL < 100.0 && m >= 418
    ensures var closes := History(p, q, m);
            && Schedule(closes).Ok? && Replay(closes).Ok?
            && TradesIn(Replay(closes).value.transitions) == TradesOf(Schedule(closes).value)
            && Trade(1, 42, 30) in TradesOf(Schedule(closes).value) && Trade(1, 420, 0) in TradesOf(Schedule(closes).value)
  {
    hide Replay, Schedule, SC.SourceCycles, Recovery, StoreIs, TradesAre;
    var closes, c := History(p, q, m), TheCycle(p);
    StaysBelow(p, q, m);
    assert SC.First(c) == 1 && SC.Ladder(c) == [ENTRY];
    ScheduleMeaning(closes);
    assert !RecoversFirst(c, BatchRecovery(c, |closes|));
    assert CalendarReaches([c][0], BatchRecovery([c][0], |closes|), |closes|);
    OnlineIsBatch(closes);
    assert SignalsBeforeExit([c][0]);
    BothTrades(c, [c], BatchRecoveries([c], |closes|));
  }

  lemma StaysBelow(p: real, q: real, m: nat)
    requires 82.0 <= p && p + RT.TOL < 100.0 && 0.0 < q && q + RT.TOL < 100.0 && m >= 418
    ensures var closes := History(p, q, m);
            && SC.SourceCycles(closes) == Ok([TheCycle(p)])
            && NoPeakInCrash([TheCycle(p)], closes) && NoNearMiss([TheCycle(p)], closes)
  {
    var closes := History(p, q, m);
    FoldIs(p, q, m, m + 3);
    assert SC.Cycles(SC.Fold(closes, |closes|, |closes|).value) == [TheCycle(p)];
    assert closes[1] == 60.0 && closes[2] == p;
    assert forall u :: 3 <= u < |closes| ==> closes[u] == q;
  }

  lemma BothTrades(c: Cycle, cycles: seq<Cycle>, recoveries: seq<nat>)
    requires cycles == [c] && |recoveries| == 1 && !RecoversFirst(c, recoveries[0])
    requires SC.First(c) == 1 && SC.Ladder(c) == [ENTRY] && c.cycleId == 1
    ensures Scheduled(cycles, recoveries, Trade(1, 42, 30)) && Scheduled(cycles, recoveries, Trade(1, 420, 0))
  {
    assert Maturity(SC.Ladder(c)[0]) == 42 && SC.Ladder(c)[0].target == 30;
    assert CycleTrade(cycles[0], Trade(1, 42, 30)) && CycleTrade(cycles[0], Trade(1, 420, 0));
    assert !RecoversFirst(cycles[0], recoveries[0]);
  }

  lemma TheyDisagree(p: real, q: real, m: nat)
    requires 82.0 <= p && 0.0 < q < 100.0 && m >= 418
    requires p + RT.TOL >= 100.0 || q + RT.TOL >= 100.0
    ensures var closes := History(p, q, m);
            && Schedule(closes).Ok? && Replay(closes).Ok?
            && TradesIn(Replay(closes).value.transitions) != TradesOf(Schedule(closes).value)
  {
    hide Replay, Schedule, SC.SourceCycles, Recovery, SignalsPrecedeRecovery, StoreIs, TradesAre;
    var closes, c := History(p, q, m), TheCycle(p);
    OneSidedCut(p, q, m);
    assert SC.First(c) == 1 && SC.Ladder(c) == [ENTRY];
    assert CutShort(c, closes);
    assert !RecoversFirst(c, BatchRecovery(c, |closes|));
    ScheduleMeaning(closes);
    assert CalendarReaches([c][0], BatchRecovery([c][0], |closes|), |closes|);
    ReplayMeaning(closes);
    assert Runs([c], closes);
    OnlineRefinesBatch(closes);
    assert CutShort([c][0], closes);
  }
}
