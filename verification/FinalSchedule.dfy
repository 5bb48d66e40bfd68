// compile_final_schedule of src/sp1execution/recovery/causal_compiler_v01.py: the batch
// form of the delay line.  T+1, then 40 sessions to entry; one exit 378 sessions after
// the first entry; no entry at all if the old ATH returns before it.
module FinalSchedule {
  import opened Common
  import opened Robust
  import opened SourceCompiler

  const ENTRY_DELAY: nat := 40
  const FIXED_HOLD: nat := 378

  // session_after_intervals of recovery/core_return_v01.py.
  function SessionAfter(sessionCount: nat, anchor: nat, intervals: nat): Result<nat, CompilerError> {
    if anchor + intervals >= sessionCount then Err(CalendarTooShort) else Ok(anchor + intervals)
  }

  datatype FinalKind = DelayedEntryOrScale | FixedExit

  datatype FinalEvent = FinalEvent(
    cycleId: nat, oldAthDate: nat, sourceSignal: Option<nat>, sourceExecution: Option<nat>,
    finalExecution: nat, kind: FinalKind, target: int, exitSignal: Option<nat>)

  datatype Delayed = Delayed(event: SourceEvent, execution: nat)

  function Entries(events: seq<SourceEvent>): seq<SourceEvent> {
    if events == [] then []
    else Entries(DropLast(events)) + if Last(events).kind.EntryOrScale? then [Last(events)] else []
  }

  function DelayAll(entries: seq<SourceEvent>, sessionCount: nat): Result<seq<Delayed>, CompilerError> {
    if entries == [] then Ok([])
    else
      var before :- DelayAll(DropLast(entries), sessionCount);
      var execution :- SessionAfter(sessionCount, Last(entries).execution, ENTRY_DELAY);
      Ok(before + [Delayed(Last(entries), execution)])
  }

  predicate EarlierDelay(a: Delayed, b: Delayed) {
    a.execution <= b.execution
  }

  predicate EarlierFinal(a: FinalEvent, b: FinalEvent) {
    a.cycleId < b.cycleId || (a.cycleId == b.cycleId && a.finalExecution <= b.finalExecution)
  }

  function ScaleEvent(c: SourceCycle, d: Delayed): FinalEvent {
    FinalEvent(c.cycleId, c.oldAthDate, Some(d.event.signal), Some(d.event.execution),
               d.execution, DelayedEntryOrScale, d.event.target, None)
  }

  function ExitEvent(c: SourceCycle, fixedExit: nat): FinalEvent {
    FinalEvent(c.cycleId, c.oldAthDate, None, None, fixedExit, FixedExit, 0,
               if fixedExit > 0 then Some(fixedExit - 1) else None)
  }

  // The scale-ups strictly before the fixed exit; later ones are discarded.
  function Scales(c: SourceCycle, delayed: seq<Delayed>, fixedExit: nat): seq<FinalEvent> {
    if delayed == [] then []
    else
      Scales(c, DropLast(delayed), fixedExit) +
      if Last(delayed).execution >= fixedExit then [] else [ScaleEvent(c, Last(delayed))]
  }

  function CycleSchedule(c: SourceCycle, sessionCount: nat): Result<seq<FinalEvent>, CompilerError> {
    var entries := Entries(c.events);
    if entries == [] then Ok([])
    else
      var unsorted :- DelayAll(entries, sessionCount);
      var delayed := Sort(EarlierDelay, unsorted);
      if delayed == [] then Ok([])
      else
        var firstDelayed := delayed[0].execution;
        if c.recovery.Some? && c.recovery.value < firstDelayed then Ok([])
        else
          var fixedExit :- SessionAfter(sessionCount, firstDelayed, FIXED_HOLD);
          Ok(Scales(c, delayed, fixedExit) + [ExitEvent(c, fixedExit)])
  }

  // The output list after the first i cycles, before the final sort.
  function Output(cycles: seq<SourceCycle>, sessionCount: nat, i: nat): Result<seq<FinalEvent>, CompilerError>
    requires i <= |cycles|
  {
    if i == 0 then Ok([])
    else
      var before :- Output(cycles, sessionCount, i - 1);
      var more :- CycleSchedule(cycles[i - 1], sessionCount);
      Ok(before + more)
  }

  function Schedule(closes: seq<real>): Result<seq<FinalEvent>, CompilerError> {
    var cycles :- SourceCycles(closes);
    var output :- Output(cycles, |closes|, |cycles|);
    Ok(Sort(EarlierFinal, output))
  }

  /* ---- What the schedule means ---- */

  // One change of the sleeve: on this session this cycle's target becomes this.
  datatype Trade = Trade(cycleId: nat, session: nat, target: int)

  function EntrySession(c: SourceCycle): nat {
    First(c) + 1 + ENTRY_DELAY
  }

  function ExitSession(c: SourceCycle): nat {
    EntrySession(c) + FIXED_HOLD
  }

  function Maturity(e: SourceEvent): nat {
    e.signal + 1 + ENTRY_DELAY
  }

  // Every trade an uncancelled cycle asks for.
  ghost predicate CycleTrade(c: SourceCycle, x: Trade) {
    && x.cycleId == c.cycleId
    && (|| (x.session == ExitSession(c) && x.target == 0)
        || (exists j :: 0 <= j < |Ladder(c)| && Maturity(Ladder(c)[j]) == x.session < ExitSession(c)
                        && Ladder(c)[j].target == x.target))
  }

  // recoveries[i] is the session at which cycle i's old ATH is back, or the calendar length.
  ghost predicate Scheduled(cycles: seq<SourceCycle>, recoveries: seq<nat>, x: Trade)
    requires |cycles| == |recoveries|
  {
    exists i :: 0 <= i < |cycles| && !RecoversFirst(cycles[i], recoveries[i]) && CycleTrade(cycles[i], x)
  }

  // The old ATH returns strictly before the first entry, so the cycle is cancelled.
  predicate RecoversFirst(c: SourceCycle, recovery: nat) {
    recovery < EntrySession(c)
  }

  function BatchRecovery(c: SourceCycle, sessionCount: nat): nat {
    if c.recovery.Some? then c.recovery.value else sessionCount
  }

  function BatchRecoveries(cycles: seq<SourceCycle>, sessionCount: nat): seq<nat> {
    seq(|cycles|, i requires 0 <= i < |cycles| => BatchRecovery(cycles[i], sessionCount))
  }

  function TradeOf(e: FinalEvent): Trade {
    Trade(e.cycleId, e.finalExecution, e.target)
  }

  function TradesOf(events: seq<FinalEvent>): seq<Trade> {
    seq(|events|, i requires 0 <= i < |events| => TradeOf(events[i]))
  }

  ghost predicate Chronological(trades: seq<Trade>) {
    forall i, j :: 0 <= i < j < |trades| ==> trades[i].session < trades[j].session
  }

  // The calendar reaches every delayed entry, and the exit of every uncancelled cycle.
  ghost predicate CalendarReaches(c: SourceCycle, recovery: nat, sessionCount: nat) {
    && (forall j :: 0 <= j < |Ladder(c)| ==> Maturity(Ladder(c)[j]) < sessionCount)
    && (!RecoversFirst(c, recovery) ==> ExitSession(c) < sessionCount)
  }

  lemma {:induction false} EntriesAreLadder(c: SourceCycle, closes: seq<real>, t: nat, sessionCount: nat)
    requires t <= |closes| && PositiveCloses(closes) && CycleShape(c, closes, t, sessionCount)
    ensures Entries(c.events) == Ladder(c)
  {
    AllEntries(Ladder(c));
    if HandedOff(c) {
      assert DropLast(c.events) == Ladder(c);
    }
  }

  lemma {:induction false} AllEntries(events: seq<SourceEvent>)
    requires forall j :: 0 <= j < |events| ==> events[j].kind.EntryOrScale?
    ensures Entries(events) == events
  {
    if events != [] {
      var front := DropLast(events);
      forall j | 0 <= j < |front| ensures front[j].kind.EntryOrScale? {
        assert front[j] == events[j];
      }
      AllEntries(front);
      assert events[|events| - 1].kind.EntryOrScale?;
      assert front + [Last(events)] == events;
    }
  }

  lemma {:induction false} DelaysOf(entries: seq<SourceEvent>, sessionCount: nat)
    requires forall j :: 0 <= j < |entries| ==> entries[j].execution == entries[j].signal + 1
    ensures DelayAll(entries, sessionCount).Ok? <==>
            forall j :: 0 <= j < |entries| ==> Maturity(entries[j]) < sessionCount
    ensures DelayAll(entries, sessionCount).Ok? ==>
              var d := DelayAll(entries, sessionCount).value;
              && |d| == |entries|
              && forall j :: 0 <= j < |d| ==> d[j] == Delayed(entries[j], Maturity(entries[j]))
  {
    if entries != [] {
      DelaysOf(DropLast(entries), sessionCount);
      assert forall j :: 0 <= j < |entries| - 1 ==> DropLast(entries)[j] == entries[j];
    }
  }

  // Each kept scale-up comes from a delayed entry before the exit ...
  lemma {:induction false} ScalesFrom(c: SourceCycle, delayed: seq<Delayed>, fixedExit: nat, i: nat) returns (k: nat)
    requires i < |Scales(c, delayed, fixedExit)|
    ensures k < |delayed| && Scales(c, delayed, fixedExit)[i] == ScaleEvent(c, delayed[k])
    ensures delayed[k].execution < fixedExit
  {
    if i < |Scales(c, DropLast(delayed), fixedExit)| {
      k := ScalesFrom(c, DropLast(delayed), fixedExit, i);
    } else {
      k := |delayed| - 1;
    }
  }

  // ... each such entry is kept ...
  lemma {:induction false} ScalesKeep(c: SourceCycle, delayed: seq<Delayed>, fixedExit: nat, k: nat)
    requires k < |delayed| && delayed[k].execution < fixedExit
    ensures ScaleEvent(c, delayed[k]) in Scales(c, delayed, fixedExit)
  {
    if k < |delayed| - 1 {
      ScalesKeep(c, DropLast(delayed), fixedExit, k);
      assert DropLast(delayed)[k] == delayed[k];
    } else {
      var s := Scales(c, delayed, fixedExit);
      assert s[|s| - 1] == ScaleEvent(c, delayed[k]);
    }
  }

  // ... and the order is that of the entries.
  lemma {:induction false} ScalesOrdered(c: SourceCycle, delayed: seq<Delayed>, fixedExit: nat)
    requires forall i, j :: 0 <= i < j < |delayed| ==> delayed[i].execution < delayed[j].execution
    ensures var s := Scales(c, delayed, fixedExit);
            forall i, j :: 0 <= i < j < |s| ==> s[i].finalExecution < s[j].finalExecution
  {
    if delayed != [] {
      var front := DropLast(delayed);
      ScalesOrdered(c, front, fixedExit);
      var f := Scales(c, front, fixedExit);
      forall i | 0 <= i < |f| ensures f[i].finalExecution < Last(delayed).execution {
        var k := ScalesFrom(c, front, fixedExit, i);
        assert delayed[k].execution < delayed[|delayed| - 1].execution;
      }
      var s := Scales(c, delayed, fixedExit);
      forall i, j | 0 <= i < j < |s| ensures s[i].finalExecution < s[j].finalExecution {
        assert s[i] == f[i];
        if j < |f| {
          assert s[j] == f[j];
        } else {
          assert s[j] == ScaleEvent(c, Last(delayed));
        }
      }
    }
  }

  function Delays(ladder: seq<SourceEvent>): seq<Delayed> {
    seq(|ladder|, j requires 0 <= j < |ladder| => Delayed(ladder[j], Maturity(ladder[j])))
  }

  // What a cycle compiles to, in terms of its ladder.
  lemma CycleScheduleIs(c: SourceCycle, closes: seq<real>)
    requires PositiveCloses(closes) && CycleShape(c, closes, |closes|, |closes|)
    ensures var r := CycleSchedule(c, |closes|);
            r.Ok? ==> r.value == if RecoversFirst(c, BatchRecovery(c, |closes|)) then []
                                 else Scales(c, Delays(Ladder(c)), ExitSession(c)) + [ExitEvent(c, ExitSession(c))]
  {
    hide CycleShape, Scales, Ladder, Entries, DelayAll, Sort;
    var n, l := |closes|, Ladder(c);
    EntriesAreLadder(c, closes, n, n);
    LadderSignals(c, closes);
    DelaysOf(l, n);
    if DelayAll(l, n).Ok? {
      var delayed := DelayAll(l, n).value;
      assert delayed == Delays(l);
      assert delayed[0].execution == EntrySession(c);
      SortOfSorted(EarlierDelay, delayed);
    }
  }

  // One cycle: it compiles exactly when the calendar reaches far enough, and then its
  // events are the trades of the cycle in date order, or nothing when it is cancelled.
  lemma CycleScheduleMeaning(c: SourceCycle, closes: seq<real>)
    requires PositiveCloses(closes) && CycleShape(c, closes, |closes|, |closes|)
    ensures var r := CycleSchedule(c, |closes|);
            && (r.Ok? <==> CalendarReaches(c, BatchRecovery(c, |closes|), |closes|))
            && (r.Ok? ==> CycleEventsMean(c, BatchRecovery(c, |closes|), r.value))
  {
    hide CycleShape, CycleEventsMean, CycleSchedule, CalendarReaches, Scales, Ladder, BatchRecovery;
    var recovery := BatchRecovery(c, |closes|);
    LadderSignals(c, closes);
    CycleScheduleOk(c, closes);
    CycleScheduleIs(c, closes);
    if RecoversFirst(c, recovery) {
      CancelledMeans(c, recovery);
    } else {
      CycleEventsOf(c, Delays(Ladder(c)), recovery);
    }
  }

  // A cycle compiles exactly when the calendar reaches far enough.
  lemma CycleScheduleOk(c: SourceCycle, closes: seq<real>)
    requires PositiveCloses(closes) && CycleShape(c, closes, |closes|, |closes|)
    ensures CycleSchedule(c, |closes|).Ok? <==> CalendarReaches(c, BatchRecovery(c, |closes|), |closes|)
  {
    hide CycleShape, CalendarReaches, Scales, Ladder, Entries, DelayAll, Sort;
    var n, l := |closes|, Ladder(c);
    EntriesAreLadder(c, closes, n, n);
    LadderSignals(c, closes);
    DelaysOf(l, n);
    CalendarReachesIff(c, n);
    if DelayAll(l, n).Ok? {
      var delayed := DelayAll(l, n).value;
      assert delayed[0].execution == EntrySession(c);
      SortOfSorted(EarlierDelay, delayed);
    }
  }

  lemma CalendarReachesIff(c: SourceCycle, n: nat)
    requires |Ladder(c)| > 0 && Ladder(c)[0].signal == First(c)
    ensures CalendarReaches(c, BatchRecovery(c, n), n) <==>
            && (forall j :: 0 <= j < |Ladder(c)| ==> Maturity(Ladder(c)[j]) < n)
            && (!RecoversFirst(c, BatchRecovery(c, n)) ==> ExitSession(c) < n)
    ensures (forall j :: 0 <= j < |Ladder(c)| ==> Maturity(Ladder(c)[j]) < n) ==> EntrySession(c) < n
  {
    if forall j :: 0 <= j < |Ladder(c)| ==> Maturity(Ladder(c)[j]) < n {
      assert Maturity(Ladder(c)[0]) < n;
    }
  }

  lemma CancelledMeans(c: SourceCycle, recovery: nat)
    requires RecoversFirst(c, recovery)
    ensures CycleEventsMean(c, recovery, [])
  {
  }

  ghost predicate CycleEventsMean(c: SourceCycle, recovery: nat, events: seq<FinalEvent>) {
    && (forall i, j :: 0 <= i < j < |events| ==> events[i].finalExecution < events[j].finalExecution)
    && (forall i :: 0 <= i < |events| ==> events[i].cycleId == c.cycleId && events[i].finalExecution >= EntrySession(c))
    && (RecoversFirst(c, recovery) ==> events == [])
    && (!RecoversFirst(c, recovery) ==>
          forall x :: CycleTrade(c, x) <==> exists i :: 0 <= i < |events| && TradeOf(events[i]) == x)
  }

  lemma LadderSignals(c: SourceCycle, closes: seq<real>)
    requires PositiveCloses(closes) && CycleShape(c, closes, |closes|, |closes|)
    ensures |Ladder(c)| > 0 && Ladder(c)[0].signal == First(c)
    ensures forall j :: 0 <= j < |Ladder(c)| ==>
              && Ladder(c)[j].execution == Ladder(c)[j].signal + 1
              && Ladder(c)[j].target > 0 && Ladder(c)[j].signal < |closes|
    ensures forall i, j :: 0 <= i < j < |Ladder(c)| ==>
              Ladder(c)[i].signal < Ladder(c)[j].signal && Ladder(c)[i].target < Ladder(c)[j].target
  {
    forall j | 0 <= j < |Ladder(c)|
      ensures Ladder(c)[j].execution == Ladder(c)[j].signal + 1 && Ladder(c)[j].signal < |closes|
    {
      assert EventFits(c.events[j], c, closes, |closes|, |closes|);
    }
  }

  lemma CycleEventsOf(c: SourceCycle, delayed: seq<Delayed>, recovery: nat)
    requires !RecoversFirst(c, recovery)
    requires |delayed| == |Ladder(c)| > 0
    requires forall j :: 0 <= j < |delayed| ==> delayed[j] == Delayed(Ladder(c)[j], Maturity(Ladder(c)[j]))
    requires forall i, j :: 0 <= i < j < |delayed| ==> delayed[i].execution < delayed[j].execution
    requires Ladder(c)[0].signal == First(c)
    ensures CycleEventsMean(c, recovery, Scales(c, delayed, ExitSession(c)) + [ExitEvent(c, ExitSession(c))])
  {
    hide CycleTrade, Scales;
    var exit := ExitSession(c);
    ScalesOrdered(c, delayed, exit);
    var s := Scales(c, delayed, exit);
    var events := s + [ExitEvent(c, exit)];
    forall i | 0 <= i < |s| ensures s[i].finalExecution >= EntrySession(c) && s[i].cycleId == c.cycleId && s[i].finalExecution < exit {
      var k := ScalesFrom(c, delayed, exit, i);
      assert delayed[0].execution == EntrySession(c);
    }
    forall x ensures CycleTrade(c, x) <==> exists i :: 0 <= i < |events| && TradeOf(events[i]) == x {
      if CycleTrade(c, x) {
        var i := TradeIsEvent(c, delayed, x);
        assert TradeOf(events[i]) == x;
      }
      if i :| 0 <= i < |events| && TradeOf(events[i]) == x {
        EventIsTrade(c, delayed, i);
      }
    }
  }

  lemma TradeIsEvent(c: SourceCycle, delayed: seq<Delayed>, x: Trade) returns (i: nat)
    requires |delayed| == |Ladder(c)|
    requires forall j :: 0 <= j < |delayed| ==> delayed[j] == Delayed(Ladder(c)[j], Maturity(Ladder(c)[j]))
    requires CycleTrade(c, x)
    ensures var events := Scales(c, delayed, ExitSession(c)) + [ExitEvent(c, ExitSession(c))];
            i < |events| && TradeOf(events[i]) == x
  {
    var exit := ExitSession(c);
    var s := Scales(c, delayed, exit);
    if x.session == exit && x.target == 0 {
      i := |s|;
    } else {
      var j :| 0 <= j < |Ladder(c)| && Maturity(Ladder(c)[j]) == x.session < exit && Ladder(c)[j].target == x.target;
      ScalesKeep(c, delayed, exit, j);
      i :| 0 <= i < |s| && s[i] == ScaleEvent(c, delayed[j]);
    }
  }

  lemma EventIsTrade(c: SourceCycle, delayed: seq<Delayed>, i: nat)
    requires |delayed| == |Ladder(c)|
    requires forall j :: 0 <= j < |delayed| ==> delayed[j] == Delayed(Ladder(c)[j], Maturity(Ladder(c)[j]))
    requires i <= |Scales(c, delayed, ExitSession(c))|
    ensures CycleTrade(c, TradeOf((Scales(c, delayed, ExitSession(c)) + [ExitEvent(c, ExitSession(c))])[i]))
  {
    var exit := ExitSession(c);
    if i < |Scales(c, delayed, exit)| {
      var k := ScalesFrom(c, delayed, exit, i);
      assert Maturity(Ladder(c)[k]) == delayed[k].execution;
    }
  }

  // By cycle, and by date within a cycle.
  ghost predicate CycleOrder(events: seq<FinalEvent>) {
    forall i, j :: 0 <= i < j < |events| ==>
      events[i].cycleId < events[j].cycleId
      || (events[i].cycleId == events[j].cycleId && events[i].finalExecution < events[j].finalExecution)
  }

  // The output list: per-cycle blocks in cycle order, so the final sort changes nothing.
  ghost predicate OutputMeans(cycles: seq<SourceCycle>, recoveries: seq<nat>, i: nat, events: seq<FinalEvent>)
    requires i <= |cycles| == |recoveries|
  {
    && CycleOrder(events)
    && (forall k :: 0 <= k < |events| ==> events[k].cycleId <= i)
    && (forall x :: Scheduled(cycles[..i], recoveries[..i], x) <==> exists k :: 0 <= k < |events| && TradeOf(events[k]) == x)
  }

  lemma {:induction false} OutputMeaning(cycles: seq<SourceCycle>, closes: seq<real>, i: nat)
    requires i <= |cycles| && PositiveCloses(closes) && CompiledShape(cycles, closes, |closes|, |closes|)
    ensures var n := |closes|;
            var r := Output(cycles, n, i);
            && (r.Ok? <==> forall k :: 0 <= k < i ==> CalendarReaches(cycles[k], BatchRecovery(cycles[k], n), n))
            && (r.Ok? ==> OutputMeans(cycles, BatchRecoveries(cycles, n), i, r.value))
  {
    hide OutputMeans, CompiledShape, CycleShape, CycleEventsMean, CalendarReaches, CycleSchedule;
    var n := |closes|;
    var recs := BatchRecoveries(cycles, n);
    EmptyOutputMeans(cycles, recs);
    if i > 0 {
      OutputMeaning(cycles, closes, i - 1);
      ShapeAt(cycles, closes, i - 1);
      CycleScheduleMeaning(cycles[i - 1], closes);
      var a, b := Output(cycles, n, i - 1), CycleSchedule(cycles[i - 1], n);
      if a.Ok? && b.Ok? {
        AppendBlock(cycles, recs, i, a.value, b.value);
      }
    }
  }

  lemma EmptyOutputMeans(cycles: seq<SourceCycle>, recs: seq<nat>)
    requires |cycles| == |recs|
    ensures OutputMeans(cycles, recs, 0, [])
  {
  }

  lemma ShapeAt(cycles: seq<SourceCycle>, closes: seq<real>, i: nat)
    requires i < |cycles| && PositiveCloses(closes) && CompiledShape(cycles, closes, |closes|, |closes|)
    ensures CycleShape(cycles[i], closes, |closes|, |closes|) && RecoveryShape(cycles[i], closes, |closes|)
    ensures cycles[i].cycleId == i + 1
  {
  }

  lemma AppendBlock(cycles: seq<SourceCycle>, recs: seq<nat>, i: nat, before: seq<FinalEvent>, more: seq<FinalEvent>)
    requires 0 < i <= |cycles| == |recs|
    requires cycles[i - 1].cycleId == i
    requires OutputMeans(cycles, recs, i - 1, before)
    requires CycleEventsMean(cycles[i - 1], recs[i - 1], more)
    ensures OutputMeans(cycles, recs, i, before + more)
  {
    hide CycleTrade;
    var c, events := cycles[i - 1], before + more;
    forall x ensures Scheduled(cycles[..i], recs[..i], x) <==> exists k :: 0 <= k < |events| && TradeOf(events[k]) == x {
      if Scheduled(cycles[..i], recs[..i], x) {
        var k :| 0 <= k < i && !RecoversFirst(cycles[..i][k], recs[..i][k]) && CycleTrade(cycles[..i][k], x);
        if k < i - 1 {
          assert !RecoversFirst(cycles[..i - 1][k], recs[..i - 1][k]) && CycleTrade(cycles[..i - 1][k], x);
          assert Scheduled(cycles[..i - 1], recs[..i - 1], x);
          var m :| 0 <= m < |before| && TradeOf(before[m]) == x;
          assert TradeOf(events[m]) == x;
        } else {
          assert CycleTrade(c, x);
          var m :| 0 <= m < |more| && TradeOf(more[m]) == x;
          assert TradeOf(events[|before| + m]) == x;
        }
      }
      if m :| 0 <= m < |events| && TradeOf(events[m]) == x {
        if m < |before| {
          assert TradeOf(before[m]) == x;
          assert Scheduled(cycles[..i - 1], recs[..i - 1], x);
          var k :| 0 <= k < i - 1 && !RecoversFirst(cycles[..i - 1][k], recs[..i - 1][k]) && CycleTrade(cycles[..i - 1][k], x);
          assert !RecoversFirst(cycles[..i][k], recs[..i][k]) && CycleTrade(cycles[..i][k], x);
        } else {
          assert TradeOf(more[m - |before|]) == x;
          assert !RecoversFirst(cycles[..i][i - 1], recs[..i][i - 1]) && CycleTrade(cycles[..i][i - 1], x);
        }
      }
    }
  }

  // The batch schedule of a history: it returns exactly when the calendar reaches far
  // enough, and then holds exactly the scheduled trades.
  lemma ScheduleMeaning(closes: seq<real>)
    requires SourceCycles(closes).Ok?
    ensures PositiveCloses(closes)
    ensures var n, cycles := |closes|, SourceCycles(closes).value;
            && (Schedule(closes).Ok? <==>
                forall k :: 0 <= k < |cycles| ==> CalendarReaches(cycles[k], BatchRecovery(cycles[k], n), n))
            && (Schedule(closes).Ok? ==>
                  && CycleOrder(Schedule(closes).value)
                  && forall x :: Scheduled(cycles, BatchRecoveries(cycles, n), x) <==> x in TradesOf(Schedule(closes).value))
  {
    hide Scheduled, CompiledShape, CalendarReaches, Output;
    CompilerIsTotal(closes);
    var n, cycles := |closes|, SourceCycles(closes).value;
    OutputMeaning(cycles, closes, |cycles|);
    if Output(cycles, n, |cycles|).Ok? {
      var output := Output(cycles, n, |cycles|).value;
      SortOfSorted(EarlierFinal, output);
      assert cycles[..|cycles|] == cycles && BatchRecoveries(cycles, n)[..|cycles|] == BatchRecoveries(cycles, n);
      forall x ensures x in TradesOf(output) <==> exists k :: 0 <= k < |output| && TradeOf(output[k]) == x {
        if x in TradesOf(output) {
          var k :| 0 <= k < |output| && TradesOf(output)[k] == x;
          assert TradeOf(output[k]) == x;
        }
        if k :| 0 <= k < |output| && TradeOf(output[k]) == x {
          assert TradesOf(output)[k] == x;
        }
      }
    }
  }

  // The dates on an event fit together: T+1 and 40 sessions after its signal, or the session
  // after the exit signal.
  ghost predicate Dated(e: FinalEvent) {
    match e.kind
    case DelayedEntryOrScale =>
      && e.sourceSignal.Some? && e.sourceExecution == Some(e.sourceSignal.value + 1)
      && e.finalExecution == e.sourceSignal.value + 41 && e.exitSignal.None? && e.target > 0
    case FixedExit =>
      && e.sourceSignal.None? && e.sourceExecution.None?
      && e.finalExecution >= 41 + 378 && e.exitSignal == Some(e.finalExecution - 1) && e.target == 0
  }

  ghost predicate AllDated(events: seq<FinalEvent>) {
    forall k :: 0 <= k < |events| ==> Dated(events[k])
  }

  lemma {:induction false} ScalesDated(c: SourceCycle, ladder: seq<SourceEvent>, fixedExit: nat)
    requires forall j :: 0 <= j < |ladder| ==> ladder[j].execution == ladder[j].signal + 1 && ladder[j].target > 0
    ensures AllDated(Scales(c, Delays(ladder), fixedExit))
  {
    if ladder != [] {
      assert DropLast(Delays(ladder)) == Delays(DropLast(ladder));
      ScalesDated(c, DropLast(ladder), fixedExit);
    }
  }

  lemma {:induction false} OutputDated(cycles: seq<SourceCycle>, closes: seq<real>, i: nat)
    requires PositiveCloses(closes) && CompiledShape(cycles, closes, |closes|, |closes|)
    requires i <= |cycles| && Output(cycles, |closes|, i).Ok?
    ensures AllDated(Output(cycles, |closes|, i).value)
  {
    hide CompiledShape, CycleShape, CycleSchedule, Scales;
    if i > 0 {
      OutputDated(cycles, closes, i - 1);
      var c := cycles[i - 1];
      ShapeAt(cycles, closes, i - 1);
      CycleScheduleIs(c, closes);
      LadderSignals(c, closes);
      ScalesDated(c, Ladder(c), ExitSession(c));
    }
  }

  lemma ScheduleDated(closes: seq<real>)
    requires Schedule(closes).Ok?
    ensures AllDated(Schedule(closes).value)
  {
    hide CompiledShape, Output;
    CompilerIsTotal(closes);
    var cycles := SourceCycles(closes).value;
    var output := Output(cycles, |closes|, |cycles|).value;
    OutputDated(cycles, closes, |cycles|);
    forall k | 0 <= k < |Schedule(closes).value| ensures Dated(Schedule(closes).value[k]) {
      SortMembers(EarlierFinal, output, Schedule(closes).value[k]);
    }
  }

  // The loops of the source.
  method CompileFinalSchedule(closes: seq<real>) returns (r: Result<seq<FinalEvent>, CompilerError>)
    ensures r == Schedule(closes)
  {
    hide SourceCycles, CycleSchedule;
    var compiled := CompileSourceCycles(closes);
    if compiled.Err? {
      return Err(compiled.error);
    }
    var cycles, sessionCount := compiled.value, |closes|;
    var output: seq<FinalEvent> := [];
    for i := 0 to |cycles|
      invariant Output(cycles, sessionCount, i) == Ok(output)
    {
      var block := CompileCycle(cycles[i], sessionCount);
      if block.Err? {
        OutputErrorStays(cycles, sessionCount, i + 1, |cycles|);
        return Err(block.error);
      }
      output := output + block.value;
    }
    return Ok(Sort(EarlierFinal, output));
  }

  lemma {:induction false} OutputErrorStays(cycles: seq<SourceCycle>, sessionCount: nat, i: nat, j: nat)
    requires i <= j <= |cycles| && Output(cycles, sessionCount, i).Err?
    ensures Output(cycles, sessionCount, j) == Output(cycles, sessionCount, i)
    decreases j
  {
    if i < j {
      OutputErrorStays(cycles, sessionCount, i, j - 1);
    }
  }

  method CompileCycle(c: SourceCycle, sessionCount: nat) returns (r: Result<seq<FinalEvent>, CompilerError>)
    ensures r == CycleSchedule(c, sessionCount)
  {
    var entries: seq<SourceEvent> := [];
    for i := 0 to |c.events|
      invariant entries == Entries(c.events[..i])
    {
      assert DropLast(c.events[..i + 1]) == c.events[..i];
      if c.events[i].kind.EntryOrScale? {
        entries := entries + [c.events[i]];
      }
    }
    assert c.events[..|c.events|] == c.events;
    if entries == [] {
      return Ok([]);
    }
    var unsorted: seq<Delayed> := [];
    for i := 0 to |entries|
      invariant DelayAll(entries[..i], sessionCount) == Ok(unsorted)
    {
      assert DropLast(entries[..i + 1]) == entries[..i];
      var execution := SessionAfter(sessionCount, entries[i].execution, ENTRY_DELAY);
      if execution.Err? {
        DelayErrorStays(entries, sessionCount, i + 1, |entries|);
        assert entries[..|entries|] == entries;
        return Err(execution.error);
      }
      unsorted := unsorted + [Delayed(entries[i], execution.value)];
    }
    assert entries[..|entries|] == entries;
    var delayed := Sort(EarlierDelay, unsorted);
    if delayed == [] {
      return Ok([]);
    }
    var firstDelayed := delayed[0].execution;
    if c.recovery.Some? && c.recovery.value < firstDelayed {
      return Ok([]);
    }
    var exit := SessionAfter(sessionCount, firstDelayed, FIXED_HOLD);
    if exit.Err? {
      return Err(exit.error);
    }
    var output: seq<FinalEvent> := [];
    for i := 0 to |delayed|
      invariant output == Scales(c, delayed[..i], exit.value)
    {
      assert DropLast(delayed[..i + 1]) == delayed[..i];
      if delayed[i].execution < exit.value {
        output := output + [ScaleEvent(c, delayed[i])];
      }
    }
    assert delayed[..|delayed|] == delayed;
    return Ok(output + [ExitEvent(c, exit.value)]);
  }

  lemma {:induction false} DelayErrorStays(entries: seq<SourceEvent>, sessionCount: nat, i: nat, j: nat)
    requires i <= j <= |entries| && DelayAll(entries[..i], sessionCount).Err?
    ensures DelayAll(entries[..j], sessionCount) == DelayAll(entries[..i], sessionCount)
    decreases j
  {
    if i < j {
      DelayErrorStays(entries, sessionCount, i, j - 1);
      assert DropLast(entries[..j]) == entries[..j - 1];
    }
  }
}
