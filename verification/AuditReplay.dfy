// What the guard audit of a schedule says about the replay of its history, and histories on
// which the audit passes and the replay raises, or the other way round.
module AuditReplay {
  import opened Common
  import opened FinalSchedule
  import opened Timeline
  import opened ClosedForm
  import opened Refinement
  import opened GuardAudit
  import opened Histories
  import opened Dispatcher
  import R = Robust
  import SC = SourceCompiler

  // The next live cycle signals after the release, or on the exit session itself.
  predicate RowAllows(row: AuditRow) {
    row.noReentry || (row.next.Some? && row.next.value.1 == row.fixedExit)
  }

  ghost predicate ActiveInTurn(active: seq<Cycle>) {
    forall k: nat, m: nat :: m == k + 1 < |active| ==> ExitSession(active[k]) <= SC.First(active[m])
  }

  lemma RowsInTurn(closes: seq<real>)
    requires Schedule(closes).Ok?
    ensures SC.SourceCycles(closes).Ok? && Audit(closes).Ok?
    ensures (forall k :: 0 <= k < |Audit(closes).value| ==> RowAllows(Audit(closes).value[k])) <==>
            ActiveInTurn(ActiveCycles(SC.SourceCycles(closes).value, Schedule(closes).value))
  {
    hide SC.SourceCycles, Schedule, Audit, ActiveCycles;
    AuditIsRelease(closes);
    SameInTurn(ActiveCycles(SC.SourceCycles(closes).value, Schedule(closes).value), Audit(closes).value);
  }

  lemma SameInTurn(active: seq<Cycle>, rows: seq<AuditRow>)
    requires |rows| == |active|
    requires forall k :: 0 <= k < |rows| ==> rows[k].fixedExit == ExitSession(active[k]) && rows[k].next == NextOf(active, k)
    requires forall k :: 0 <= k < |rows| - 1 ==> (rows[k].noReentry <==> SC.First(active[k + 1]) > ExitSession(active[k]))
    requires rows != [] ==> Last(rows).noReentry
    ensures (forall k :: 0 <= k < |rows| ==> RowAllows(rows[k])) <==> ActiveInTurn(active)
  {
    hide SC.First, ExitSession;
    forall k: nat, m: nat | m == k + 1 < |active|
      ensures RowAllows(rows[k]) <==> ExitSession(active[k]) <= SC.First(active[m])
    {
    }
    if ActiveInTurn(active) {
      forall k: nat | k < |rows| ensures RowAllows(rows[k]) {
        var m := k + 1;
        if m < |active| {
          assert ExitSession(active[k]) <= SC.First(active[m]);
        }
      }
    }
  }

  lemma {:induction false} ExitsByFirst(active: seq<Cycle>, a: nat, b: nat)
    requires a < b < |active| && ActiveInTurn(active)
    ensures ExitSession(active[a]) <= SC.First(active[b])
    decreases b
  {
    var m := b - 1;
    assert b == m + 1;
    assert ExitSession(active[m]) <= SC.First(active[b]);
    if a < m {
      ExitsByFirst(active, a, m);
      assert SC.First(active[m]) <= ExitSession(active[m]);
    }
  }

  // Live cycles are clear of all earlier holds exactly if each exits by the first signal of the next.
  lemma InTurnIsClear(cycles: seq<Cycle>, closes: seq<real>, schedule: seq<FinalEvent>)
    requires Scheduling(cycles, closes, schedule)
    ensures ActiveInTurn(ActiveCycles(cycles, schedule)) <==>
            forall i :: 0 <= i < |cycles| && Live(cycles[i], |closes|) ==> ClearOfHolds(cycles, |closes|, i)
  {
    hide ActiveCycles, Scheduling, Live, LiveOnes, ActiveInTurn;
    var active := AllActive(cycles, closes, schedule);
    if ActiveInTurn(active) {
      forall i, k | 0 <= k < i < |cycles| && Live(cycles[i], |closes|) && Live(cycles[k], |closes|)
        ensures ExitSession(cycles[k]) <= SC.First(cycles[i])
      {
        IdAt(cycles, closes, schedule, i);
        IdAt(cycles, closes, schedule, k);
        var a, b := PlacesOf(active, cycles, |closes|, k, i);
        ExitsByFirst(active, a, b);
      }
    }
    if forall i :: 0 <= i < |cycles| && Live(cycles[i], |closes|) ==> ClearOfHolds(cycles, |closes|, i) {
      ClearInTurn(active, cycles, |closes|);
    }
  }

  lemma ClearInTurn(active: seq<Cycle>, cycles: seq<Cycle>, sessionCount: nat)
    requires LiveOnes(active, cycles, sessionCount, |cycles|)
    requires forall i :: 0 <= i < |cycles| && Live(cycles[i], sessionCount) ==> ClearOfHolds(cycles, sessionCount, i)
    ensures ActiveInTurn(active)
  {
    hide Live;
    forall k: nat, m: nat | m == k + 1 < |active| ensures ExitSession(active[k]) <= SC.First(active[m]) {
      var a, b := active[k].cycleId - 1, active[m].cycleId - 1;
      assert a < b && active[k] == cycles[a] && active[m] == cycles[b];
      assert ClearOfHolds(cycles, sessionCount, b);
    }
  }

  // Under the two price conditions, a compiled schedule replays without raising exactly when no live
  // cycle signals at or after its own exit, every audit row passes or has its next signal on the
  // exit session itself, and every cancelled cycle is clear of the holds before it.
  lemma AuditDecidesReplay(closes: seq<real>)
    requires Schedule(closes).Ok?
    requires SC.SourceCycles(closes).Ok?
    requires NoPeakInCrash(SC.SourceCycles(closes).value, closes) && NoNearMiss(SC.SourceCycles(closes).value, closes)
    ensures Audit(closes).Ok?
    ensures var cycles := SC.SourceCycles(closes).value;
            Replay(closes).Ok? <==>
              && (forall i :: 0 <= i < |cycles| && Live(cycles[i], |closes|) ==> SignalsBeforeExit(cycles[i]))
              && (forall k :: 0 <= k < |Audit(closes).value| ==> RowAllows(Audit(closes).value[k]))
              && (forall i :: 0 <= i < |cycles| && !Live(cycles[i], |closes|) ==> ClearOfHolds(cycles, |closes|, i))
  {
    hide SC.SourceCycles, Schedule, Audit, ActiveCycles, Scheduling, Replay, SameCuts, NoPeakInCrash, NoNearMiss, RowAllows, SignalsBeforeExit;
    var cycles, n := SC.SourceCycles(closes).value, |closes|;
    OnlineIsBatch(closes);
    AgreeingHistories(closes);
    SchedulingIs(closes);
    RowsInTurn(closes);
    InTurnIsClear(cycles, closes, Schedule(closes).value);
    forall i | 0 <= i < |cycles|
      ensures CutShort(cycles[i], closes) <==> !Live(cycles[i], n)
      ensures AfterRelease(cycles, closes, i) <==> ClearOfHolds(cycles, n, i)
    {
      HoldsAlike(cycles, closes, i);
    }
  }

  lemma HoldsAlike(cycles: seq<Cycle>, closes: seq<real>, i: nat)
    requires SameCuts(cycles, closes) && i < |cycles|
    ensures CutShort(cycles[i], closes) <==> !Live(cycles[i], |closes|)
    ensures AfterRelease(cycles, closes, i) <==> ClearOfHolds(cycles, |closes|, i)
  {
    hide CutShort, RecoversFirst;
    forall k | 0 <= k <= i ensures CutShort(cycles[k], closes) <==> !Live(cycles[k], |closes|) {
    }
  }

  /* ---- Histories ---- */

  // A cycle with one ladder event and a handoff on the next close.
  function ShortCycle(id: nat, signal: nat, low: real, high: real, recovery: Option<nat>): Cycle
    requires low > 0.0 && high > 0.0
  {
    var c := SC.SourceCycle(id, 0, 100.0, [], recovery);
    c.(events := [LadderEvent(c, signal, low, 30), HandoffOf(c, signal + 1, high)])
  }

  lemma ShortEvents(id: nat, signal: nat, recovery: Option<nat>)
    ensures var c := SC.SourceCycle(id, 0, 100.0, [], None);
            var fallen := c.(events := [LadderEvent(c, signal, 60.0, 30)]);
            fallen.(events := fallen.events + [HandoffOf(fallen, signal + 1, 90.0)], recovery := recovery)
            == ShortCycle(id, signal, 60.0, 90.0, recovery)
  {
    hide R.DrawdownFraction;
  }

  lemma ShortFacts(id: nat, signal: nat, recovery: Option<nat>)
    ensures var c := ShortCycle(id, signal, 60.0, 90.0, recovery);
            && SC.HandedOff(c) && SC.First(c) == signal && SC.Ladder(c) == [c.events[0]] && c.events[0].signal == signal
            && Last(c.events).signal == signal + 1 && SignalsBeforeExit(c)
  {
  }

  // The old ATH is regained at session 50, after the entry at 42, so the sleeve stays until 420; a
  // second crash signals at 51 and has recovered by 53.
  function CancelledInHold(m: nat): seq<real> {
    [100.0, 60.0, 90.0] + seq(47, _ => 99.0) + [100.0, 60.0, 90.0, 100.0] + seq(m, _ => 100.0)
  }

  lemma CancelledCloses(m: nat)
    ensures var closes := CancelledInHold(m);
            && |closes| == 54 + m && SC.PositiveCloses(closes)
            && closes[0] == 100.0 && closes[1] == 60.0 && closes[2] == 90.0 && (forall u :: 3 <= u < 50 ==> closes[u] == 99.0)
            && closes[50] == 100.0 && closes[51] == 60.0 && closes[52] == 90.0 && (forall u :: 53 <= u < |closes| ==> closes[u] == 100.0)
  {
  }

  lemma CancelledCycles(m: nat)
    ensures SC.SourceCycles(CancelledInHold(m)) ==
            Ok([ShortCycle(1, 1, 60.0, 90.0, Some(50)), ShortCycle(2, 51, 60.0, 90.0, Some(53))])
  {
    hide SC.Fold, SC.Step, SC.PositiveCloses, R.DrawdownFraction, SC.SourceCycles, CancelledInHold, ShortCycle;
    CancelledCloses(m);
    var closes := CancelledInHold(m);
    Starts(closes);
    var st := Falls(closes, 1, SC.Compiler(Idle(100.0), Some((0, 100.0)), None, [], 0), 100.0);
    st := HandsOff(closes, 2, st, 100.0, 60.0);
    RestsFor(closes, 3, 50, st, 99.0);
    st := Recovers(closes, 50, st, 100.0, 60.0);
    st := Falls(closes, 51, st, 100.0);
    st := HandsOff(closes, 52, st, 100.0, 60.0);
    st := Recovers(closes, 53, st, 100.0, 60.0);
    RestsFor(closes, 54, |closes|, st, 100.0);
    Compiled(closes, st);
    ShortEvents(1, 1, Some(50));
    ShortEvents(2, 51, Some(53));
    assert SC.Cycles(st) == [ShortCycle(1, 1, 60.0, 90.0, Some(50)), ShortCycle(2, 51, 60.0, 90.0, Some(53))];
  }

  // Every audit row passes and the replay raises.
  lemma PassesAndRaises(m: nat)
    requires m >= 367
    ensures var closes := CancelledInHold(m);
            && Schedule(closes).Ok? && Audit(closes).Ok?
            && (forall k :: 0 <= k < |Audit(closes).value| ==> Audit(closes).value[k].noReentry)
            && Replay(closes).Err?
  {
    hide SC.SourceCycles, Schedule, Audit, Replay, CancelledInHold, ShortCycle, SignalsBeforeExit, Scheduling, ActiveCycles;
    var closes := CancelledInHold(m);
    CancelledCloses(m);
    CancelledCycles(m);
    ShortFacts(1, 1, Some(50));
    ShortFacts(2, 51, Some(53));
    var cycles := SC.SourceCycles(closes).value;
    ShortNumbers(1, 1, Some(50));
    ShortNumbers(2, 51, Some(53));
    ScheduleMeaning(closes);
    AuditDecidesReplay(closes);
    assert Live(cycles[0], |closes|) && !Live(cycles[1], |closes|);
    assert !ClearOfHolds(cycles, |closes|, 1);
    AuditIsRelease(closes);
    SchedulingIs(closes);
    var active := AllActive(cycles, closes, Schedule(closes).value);
    OneActive(active, cycles, |closes|);
  }

  lemma ShortNumbers(id: nat, signal: nat, recovery: Option<nat>)
    ensures var c := ShortCycle(id, signal, 60.0, 90.0, recovery);
            c.oldAth == 100.0 && c.recovery == recovery && c.cycleId == id
  {
  }

  lemma OneActive(active: seq<Cycle>, cycles: seq<Cycle>, sessionCount: nat)
    requires |cycles| == 2 && !Live(cycles[1], sessionCount) && LiveOnes(active, cycles, sessionCount, 2)
    ensures |active| <= 1
  {
    hide Live;
    IdsRise(active, cycles, sessionCount);
    assert forall k :: 0 <= k < |active| ==> active[k].cycleId == 1;
  }

  lemma IdsRise(active: seq<Cycle>, cycles: seq<Cycle>, sessionCount: nat)
    requires LiveOnes(active, cycles, sessionCount, |cycles|)
    ensures |active| > 1 ==> active[0].cycleId < active[1].cycleId
    ensures |active| > 2 ==> active[1].cycleId < active[2].cycleId
  {
  }

  // The second crash signals on the exit session of the first cycle itself.
  function SignalOnExit(m: nat): seq<real> {
    [100.0, 60.0, 90.0] + seq(47, _ => 99.0) + seq(370, _ => 100.0) + [60.0, 90.0] + seq(m, _ => 99.0)
  }

  lemma OnExitCloses(m: nat)
    ensures var closes := SignalOnExit(m);
            && |closes| == 422 + m && SC.PositiveCloses(closes)
            && closes[0] == 100.0 && closes[1] == 60.0 && closes[2] == 90.0 && (forall u :: 3 <= u < 50 ==> closes[u] == 99.0)
            && (forall u :: 50 <= u < 420 ==> closes[u] == 100.0)
            && closes[420] == 60.0 && closes[421] == 90.0 && (forall u :: 422 <= u < |closes| ==> closes[u] == 99.0)
  {
  }

  lemma OnExitCycles(m: nat)
    requires m > 0
    ensures SC.SourceCycles(SignalOnExit(m)) ==
            Ok([ShortCycle(1, 1, 60.0, 90.0, Some(50)), ShortCycle(2, 420, 60.0, 90.0, None)])
  {
    hide SC.Fold, SC.Step, SC.PositiveCloses, R.DrawdownFraction, SC.SourceCycles, SignalOnExit, ShortCycle;
    OnExitCloses(m);
    var closes := SignalOnExit(m);
    Starts(closes);
    var st := Falls(closes, 1, SC.Compiler(Idle(100.0), Some((0, 100.0)), None, [], 0), 100.0);
    st := HandsOff(closes, 2, st, 100.0, 60.0);
    RestsFor(closes, 3, 50, st, 99.0);
    st := Recovers(closes, 50, st, 100.0, 60.0);
    RestsFor(closes, 51, 420, st, 100.0);
    st := Falls(closes, 420, st, 100.0);
    st := HandsOff(closes, 421, st, 100.0, 60.0);
    RestsFor(closes, 422, |closes|, st, 99.0);
    Compiled(closes, st);
    ShortEvents(1, 1, Some(50));
    ShortEvents(2, 420, None);
    assert SC.Cycles(st) == [ShortCycle(1, 1, 60.0, 90.0, Some(50)), ShortCycle(2, 420, 60.0, 90.0, None)];
  }

  // An audit row fails and the replay returns.
  lemma FailsAndReturns(m: nat)
    requires m >= 418
    ensures var closes := SignalOnExit(m);
            && Schedule(closes).Ok? && Audit(closes).Ok?
            && |Audit(closes).value| > 0 && !Audit(closes).value[0].noReentry
            && Replay(closes).Ok?
  {
    hide SC.SourceCycles, Schedule, Audit, Replay, SignalOnExit, ShortCycle, SignalsBeforeExit, Scheduling, ActiveCycles;
    var closes := SignalOnExit(m);
    OnExitCloses(m);
    OnExitCycles(m);
    OnExitFacts(SC.SourceCycles(closes).value, closes);
    SchedulingIs(closes);
    var cycles := SC.SourceCycles(closes).value;
    var active := AllActive(cycles, closes, Schedule(closes).value);
    BothActive(active, cycles, |closes|);
    AuditIsRelease(closes);
    RowsInTurn(closes);
    OnExitPrices(cycles, closes, m);
    AuditDecidesReplay(closes);
  }

  lemma OnExitPrices(cycles: seq<Cycle>, closes: seq<real>, m: nat)
    requires cycles == [ShortCycle(1, 1, 60.0, 90.0, Some(50)), ShortCycle(2, 420, 60.0, 90.0, None)] && closes == SignalOnExit(m)
    ensures NoPeakInCrash(cycles, closes) && NoNearMiss(cycles, closes)
  {
    hide ShortCycle, SignalOnExit;
    OnExitCloses(m);
    ShortFacts(1, 1, Some(50));
    ShortFacts(2, 420, None);
    ShortNumbers(1, 1, Some(50));
    ShortNumbers(2, 420, None);
  }

  lemma OnExitFacts(cycles: seq<Cycle>, closes: seq<real>)
    requires cycles == [ShortCycle(1, 1, 60.0, 90.0, Some(50)), ShortCycle(2, 420, 60.0, 90.0, None)]
    requires SC.SourceCycles(closes) == Ok(cycles) && |closes| >= 840
    ensures Schedule(closes).Ok? && SC.SourceCycles(closes).Ok?
    ensures Live(cycles[0], |closes|) && Live(cycles[1], |closes|) && SignalsBeforeExit(cycles[0]) && SignalsBeforeExit(cycles[1])
    ensures ExitSession(cycles[0]) == 420 == SC.First(cycles[1]) && cycles[0].cycleId == 1 && cycles[1].cycleId == 2
  {
    hide SC.SourceCycles, Schedule, ShortCycle, SignalsBeforeExit;
    ShortFacts(1, 1, Some(50));
    ShortFacts(2, 420, None);
    ShortNumbers(1, 1, Some(50));
    ShortNumbers(2, 420, None);
    ScheduleMeaning(closes);
  }

  lemma BothActive(active: seq<Cycle>, cycles: seq<Cycle>, sessionCount: nat)
    requires |cycles| == 2 && Live(cycles[0], sessionCount) && Live(cycles[1], sessionCount)
    requires LiveOnes(active, cycles, sessionCount, 2) && cycles[0].cycleId == 1 && cycles[1].cycleId == 2
    ensures active == cycles
  {
    hide Live;
    var a, b := PlacesOf(active, cycles, sessionCount, 0, 1);
    IdsRise(active, cycles, sessionCount);
    assert forall k :: 0 <= k < |active| ==> 1 <= active[k].cycleId <= 2;
  }

  // A crash that deepens on the exit session of its own cycle.
  function DeepensAtExit(m: nat): seq<real> {
    [100.0, 60.0] + seq(418, _ => 60.0) + [50.0] + seq(m, _ => 50.0)
  }

  function DeepCycle(): Cycle {
    var c := SC.SourceCycle(1, 0, 100.0, [], None);
    c.(events := [LadderEvent(c, 1, 60.0, 30), LadderEvent(c, 420, 50.0, 100)])
  }

  lemma DeepensCycles(m: nat)
    requires m > 0
    ensures SC.SourceCycles(DeepensAtExit(m)) == Ok([DeepCycle()])
  {
    hide SC.Fold, SC.Step, SC.PositiveCloses, R.DrawdownFraction, SC.SourceCycles;
    var closes := DeepensAtExit(m);
    assert SC.PositiveCloses(closes) by {
      DeepensCloses(m);
    }
    DeepensCloses(m);
    Starts(closes);
    var st := Falls(closes, 1, SC.Compiler(Idle(100.0), Some((0, 100.0)), None, [], 0), 100.0);
    RestsFor(closes, 2, 420, st, 60.0);
    st := FallsFurther(closes, 420, st, 100.0);
    RestsFor(closes, 421, |closes|, st, 50.0);
    Compiled(closes, st);
    assert st.active.value.events == DeepCycle().events;
    assert SC.Cycles(st) == [DeepCycle()];
  }

  lemma DeepensCloses(m: nat)
    ensures var closes := DeepensAtExit(m);
            && |closes| == 421 + m && SC.PositiveCloses(closes) && closes[0] == 100.0
            && (forall u :: 1 <= u < 420 ==> closes[u] == 60.0) && (forall u :: 420 <= u < |closes| ==> closes[u] == 50.0)
  {
  }

  // The compiler drops the late signal and compiles; the dispatcher raises on it.
  lemma LateSignalRaises(m: nat)
    requires m >= 41
    ensures Schedule(DeepensAtExit(m)).Ok? && Replay(DeepensAtExit(m)).Err?
  {
    hide SC.SourceCycles, Schedule, Audit, Replay, DeepensAtExit;
    var closes := DeepensAtExit(m);
    DeepensCloses(m);
    DeepensCycles(m);
    var cycles := SC.SourceCycles(closes).value;
    assert cycles == [DeepCycle()] && SC.Ladder(cycles[0]) == DeepCycle().events;
    ScheduleMeaning(closes);
    AuditDecidesReplay(closes);
    assert Live(cycles[0], |closes|);
    assert SC.Ladder(cycles[0])[1].signal == 420 == ExitSession(cycles[0]);
  }
}
