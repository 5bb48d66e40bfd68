// compile_guard_audit of src/sp1execution/recovery/causal_compiler_v01.py: for each cycle with
// final events, whether the next such cycle first signals after its release.  The audit skips
// cancelled cycles, and is stricter than the dispatcher on the exit session itself.
module GuardAudit {
  import opened Common
  import opened Robust
  import opened SourceCompiler
  import opened FinalSchedule

  datatype AuditRow = AuditRow(
    cycleId: nat, fixedExit: nat, recovery: Option<nat>, release: nat, next: Option<(nat, nat)>, noReentry: bool)

  datatype AuditError = NotCompiled(error: CompilerError) | NotOneExit

  predicate HasEvents(schedule: seq<FinalEvent>, cycleId: nat) {
    exists k :: 0 <= k < |schedule| && schedule[k].cycleId == cycleId
  }

  // The cycles with final events.
  function ActiveCycles(cycles: seq<SourceCycle>, schedule: seq<FinalEvent>): seq<SourceCycle> {
    if cycles == [] then []
    else
      ActiveCycles(DropLast(cycles), schedule) +
      if HasEvents(schedule, Last(cycles).cycleId) then [Last(cycles)] else []
  }

  function ExitsOf(schedule: seq<FinalEvent>, cycleId: nat): seq<FinalEvent> {
    if schedule == [] then []
    else
      ExitsOf(DropLast(schedule), cycleId) +
      if Last(schedule).cycleId == cycleId && Last(schedule).kind.FixedExit? then [Last(schedule)] else []
  }

  function Release(fixedExit: nat, recovery: Option<nat>): nat {
    if recovery.Some? && recovery.value > fixedExit then recovery.value else fixedExit
  }

  function RowFor(c: SourceCycle, fixedExit: nat, next: Option<(nat, nat)>): AuditRow {
    var release := Release(fixedExit, c.recovery);
    AuditRow(c.cycleId, fixedExit, c.recovery, release, next, next.None? || next.value.1 > release)
  }

  function NextOf(active: seq<SourceCycle>, i: nat): Option<(nat, nat)>
    requires i < |active|
  {
    if i + 1 < |active| then Some((active[i + 1].cycleId, First(active[i + 1]))) else None
  }

  function Rows(active: seq<SourceCycle>, schedule: seq<FinalEvent>, n: nat): Result<seq<AuditRow>, AuditError>
    requires n <= |active|
  {
    if n == 0 then Ok([])
    else
      var before :- Rows(active, schedule, n - 1);
      var exits := ExitsOf(schedule, active[n - 1].cycleId);
      if |exits| != 1 then Err(NotOneExit)
      else Ok(before + [RowFor(active[n - 1], exits[0].finalExecution, NextOf(active, n - 1))])
  }

  function Audit(closes: seq<real>): Result<seq<AuditRow>, AuditError> {
    match SourceCycles(closes)
    case Err(e) => Err(NotCompiled(e))
    case Ok(cycles) =>
      match Schedule(closes)
      case Err(e) => Err(NotCompiled(e))
      case Ok(schedule) =>
        var active := ActiveCycles(cycles, schedule);
        Rows(active, schedule, |active|)
  }

  method CompileGuardAudit(closes: seq<real>) returns (r: Result<seq<AuditRow>, AuditError>)
    ensures r == Audit(closes)
  {
    hide SourceCycles, Schedule, HasEvents;
    var compiled := CompileSourceCycles(closes);
    if compiled.Err? {
      return Err(NotCompiled(compiled.error));
    }
    var scheduled := CompileFinalSchedule(closes);
    if scheduled.Err? {
      return Err(NotCompiled(scheduled.error));
    }
    var cycles, schedule := compiled.value, scheduled.value;
    var active: seq<SourceCycle> := [];
    for i := 0 to |cycles|
      invariant active == ActiveCycles(cycles[..i], schedule)
    {
      assert DropLast(cycles[..i + 1]) == cycles[..i];
      if HasEvents(schedule, cycles[i].cycleId) {
        active := active + [cycles[i]];
      }
    }
    assert cycles[..|cycles|] == cycles;
    var rows: seq<AuditRow> := [];
    for i := 0 to |active|
      invariant Rows(active, schedule, i) == Ok(rows)
    {
      var exits := ExitsOf(schedule, active[i].cycleId);
      if |exits| != 1 {
        RowsErrorStays(active, schedule, i + 1, |active|);
        return Err(NotOneExit);
      }
      rows := rows + [RowFor(active[i], exits[0].finalExecution, NextOf(active, i))];
    }
    return Ok(rows);
  }

  lemma {:induction false} RowsErrorStays(active: seq<SourceCycle>, schedule: seq<FinalEvent>, i: nat, j: nat)
    requires i <= j <= |active| && Rows(active, schedule, i).Err?
    ensures Rows(active, schedule, j) == Rows(active, schedule, i)
    decreases j
  {
    if i < j {
      RowsErrorStays(active, schedule, i, j - 1);
    }
  }

  /* ---- One exit per active cycle ---- */

  // Exits are the events with target zero.
  ghost predicate KindsFit(events: seq<FinalEvent>) {
    forall k :: 0 <= k < |events| ==> (events[k].kind.FixedExit? <==> events[k].target == 0)
  }

  lemma {:induction false} ScalesFit(c: SourceCycle, ladder: seq<SourceEvent>, fixedExit: nat)
    requires forall j :: 0 <= j < |ladder| ==> ladder[j].target > 0
    ensures KindsFit(Scales(c, Delays(ladder), fixedExit))
  {
    if ladder != [] {
      assert DropLast(Delays(ladder)) == Delays(DropLast(ladder));
      ScalesFit(c, DropLast(ladder), fixedExit);
    }
  }

  lemma CycleFits(c: SourceCycle, closes: seq<real>)
    requires PositiveCloses(closes) && CycleShape(c, closes, |closes|, |closes|) && CycleSchedule(c, |closes|).Ok?
    ensures KindsFit(CycleSchedule(c, |closes|).value)
  {
    hide CycleShape, CycleSchedule, Scales;
    CycleScheduleIs(c, closes);
    LadderSignals(c, closes);
    ScalesFit(c, Ladder(c), ExitSession(c));
  }

  lemma {:induction false} OutputFits(cycles: seq<SourceCycle>, closes: seq<real>, i: nat)
    requires PositiveCloses(closes) && CompiledShape(cycles, closes, |closes|, |closes|)
    requires i <= |cycles| && Output(cycles, |closes|, i).Ok?
    ensures KindsFit(Output(cycles, |closes|, i).value)
  {
    hide CompiledShape, CycleShape, CycleSchedule;
    if i > 0 {
      OutputFits(cycles, closes, i - 1);
      ShapeAt(cycles, closes, i - 1);
      CycleFits(cycles[i - 1], closes);
    }
  }

  lemma {:induction false} ExitsMembers(schedule: seq<FinalEvent>, cycleId: nat)
    ensures forall e :: e in ExitsOf(schedule, cycleId) <==> e in schedule && e.cycleId == cycleId && e.kind.FixedExit?
  {
    if schedule != [] {
      ExitsMembers(DropLast(schedule), cycleId);
      assert schedule == DropLast(schedule) + [Last(schedule)];
    }
  }

  lemma {:induction false} ExitsOrdered(schedule: seq<FinalEvent>, cycleId: nat)
    requires CycleOrder(schedule)
    ensures CycleOrder(ExitsOf(schedule, cycleId))
  {
    if schedule != [] {
      var front := DropLast(schedule);
      ExitsOrdered(front, cycleId);
      ExitsMembers(front, cycleId);
      var exits := ExitsOf(front, cycleId);
      forall k | 0 <= k < |exits|
        ensures exits[k].cycleId < Last(schedule).cycleId
                || (exits[k].cycleId == Last(schedule).cycleId && exits[k].finalExecution < Last(schedule).finalExecution)
      {
        assert exits[k] in front;
        var m :| 0 <= m < |front| && front[m] == exits[k];
        assert schedule[m] == exits[k];
      }
    }
  }

  // What the compiled schedule says, ready for the audit.
  ghost predicate Scheduling(cycles: seq<SourceCycle>, closes: seq<real>, schedule: seq<FinalEvent>) {
    && PositiveCloses(closes) && CompiledShape(cycles, closes, |closes|, |closes|)
    && CycleOrder(schedule) && KindsFit(schedule)
    && forall x :: Scheduled(cycles, BatchRecoveries(cycles, |closes|), x) <==> x in TradesOf(schedule)
  }

  lemma SchedulingIs(closes: seq<real>)
    requires Schedule(closes).Ok?
    ensures SourceCycles(closes).Ok? && Scheduling(SourceCycles(closes).value, closes, Schedule(closes).value)
  {
    hide CompiledShape, OutputMeans, CalendarReaches, Scheduled;
    CompilerIsTotalFor(closes);
    var cycles := SourceCycles(closes).value;
    ScheduleMeaning(closes);
    OutputMeaning(cycles, closes, |cycles|);
    var output := Output(cycles, |closes|, |cycles|).value;
    OutputFits(cycles, closes, |cycles|);
    InOrder(cycles, BatchRecoveries(cycles, |closes|), |cycles|, output);
    SortOfSorted(EarlierFinal, output);
  }

  lemma CompilerIsTotalFor(closes: seq<real>)
    requires Schedule(closes).Ok?
    ensures SourceCycles(closes).Ok? && PositiveCloses(closes)
    ensures CompiledShape(SourceCycles(closes).value, closes, |closes|, |closes|)
  {
    hide CompiledShape;
    CompilerIsTotal(closes);
  }

  lemma InOrder(cycles: seq<SourceCycle>, recoveries: seq<nat>, i: nat, events: seq<FinalEvent>)
    requires i <= |cycles| == |recoveries| && OutputMeans(cycles, recoveries, i, events)
    ensures SortedBy(EarlierFinal, events)
  {
    hide Scheduled;
  }

  predicate Live(c: SourceCycle, sessionCount: nat) {
    !RecoversFirst(c, BatchRecovery(c, sessionCount))
  }

  // The trade of an event is a trade of its own cycle, which is live.
  lemma EventOfCycle(cycles: seq<SourceCycle>, closes: seq<real>, schedule: seq<FinalEvent>, e: FinalEvent) returns (i: nat)
    requires Scheduling(cycles, closes, schedule) && e in schedule
    ensures i < |cycles| && cycles[i].cycleId == e.cycleId == i + 1 && Live(cycles[i], |closes|)
    ensures CycleTrade(cycles[i], TradeOf(e))
  {
    hide CycleTrade, CompiledShape, CycleShape, KindsFit, CycleOrder;
    var k :| 0 <= k < |schedule| && schedule[k] == e;
    var x := TradeOf(e);
    assert TradesOf(schedule)[k] == x;
    i := SomeCycle(cycles, closes, x);
    ShapeAt(cycles, closes, i);
    TradeOfCycle(cycles[i], x);
  }

  lemma SomeCycle(cycles: seq<SourceCycle>, closes: seq<real>, x: Trade) returns (i: nat)
    requires Scheduled(cycles, BatchRecoveries(cycles, |closes|), x)
    ensures i < |cycles| && Live(cycles[i], |closes|) && CycleTrade(cycles[i], x)
  {
    hide CycleTrade;
    var recoveries := BatchRecoveries(cycles, |closes|);
    i :| 0 <= i < |cycles| && !RecoversFirst(cycles[i], recoveries[i]) && CycleTrade(cycles[i], x);
  }

  lemma TradeOfCycle(c: SourceCycle, x: Trade)
    requires CycleTrade(c, x)
    ensures x.cycleId == c.cycleId
  {
  }

  lemma ZeroIsExit(c: SourceCycle, closes: seq<real>, x: Trade)
    requires PositiveCloses(closes) && CycleShape(c, closes, |closes|, |closes|) && CycleTrade(c, x) && x.target == 0
    ensures x.session == ExitSession(c)
  {
    LadderSignals(c, closes);
  }

  // A live cycle has exactly one exit, 378 sessions after its first entry.
  lemma OneExit(cycles: seq<SourceCycle>, closes: seq<real>, schedule: seq<FinalEvent>, i: nat)
    requires Scheduling(cycles, closes, schedule) && i < |cycles| && Live(cycles[i], |closes|)
    ensures var exits := ExitsOf(schedule, cycles[i].cycleId);
            |exits| == 1 && exits[0].finalExecution == ExitSession(cycles[i])
    ensures HasEvents(schedule, cycles[i].cycleId)
  {
    hide CompiledShape, CycleShape, CycleTrade, Scheduled;
    var c := cycles[i];
    ShapeAt(cycles, closes, i);
    var x := Trade(c.cycleId, ExitSession(c), 0);
    ExitScheduled(cycles, closes, i);
    assert x in TradesOf(schedule);
    var k :| 0 <= k < |schedule| && TradesOf(schedule)[k] == x;
    var exits := ExitsOf(schedule, c.cycleId);
    ExitsMembers(schedule, c.cycleId);
    ExitsOrdered(schedule, c.cycleId);
    assert schedule[k] in exits;
    hide Scheduling, ExitSession;
    forall m | 0 <= m < |exits| ensures exits[m].finalExecution == ExitSession(c) {
      assert exits[m] in exits;
      ExitDate(cycles, closes, schedule, i, exits[m]);
    }
    SameDateOnce(exits, c.cycleId, ExitSession(c));
  }

  lemma ExitDate(cycles: seq<SourceCycle>, closes: seq<real>, schedule: seq<FinalEvent>, i: nat, e: FinalEvent)
    requires Scheduling(cycles, closes, schedule) && i < |cycles|
    requires e in schedule && e.cycleId == cycles[i].cycleId && e.kind.FixedExit?
    ensures e.finalExecution == ExitSession(cycles[i])
  {
    hide CompiledShape, CycleShape, CycleTrade, Scheduled, ExitSession;
    ShapeAt(cycles, closes, i);
    var j := EventOfCycle(cycles, closes, schedule, e);
    ZeroTarget(schedule, e);
    ZeroIsExit(cycles[i], closes, TradeOf(e));
  }

  lemma ExitScheduled(cycles: seq<SourceCycle>, closes: seq<real>, i: nat)
    requires i < |cycles| && Live(cycles[i], |closes|)
    ensures Scheduled(cycles, BatchRecoveries(cycles, |closes|), Trade(cycles[i].cycleId, ExitSession(cycles[i]), 0))
  {
    assert CycleTrade(cycles[i], Trade(cycles[i].cycleId, ExitSession(cycles[i]), 0));
    assert !RecoversFirst(cycles[i], BatchRecoveries(cycles, |closes|)[i]);
  }

  lemma ZeroTarget(schedule: seq<FinalEvent>, e: FinalEvent)
    requires KindsFit(schedule) && e in schedule && e.kind.FixedExit?
    ensures e.target == 0
  {
  }

  lemma SameDateOnce(events: seq<FinalEvent>, cycleId: nat, date: nat)
    requires CycleOrder(events) && forall m :: 0 <= m < |events| ==> events[m].cycleId == cycleId && events[m].finalExecution == date
    ensures |events| <= 1
  {
    if |events| > 1 {
      FirstTwo(events);
    }
  }

  lemma FirstTwo(events: seq<FinalEvent>)
    requires CycleOrder(events) && |events| > 1
    ensures events[0].cycleId < events[1].cycleId || events[0].finalExecution < events[1].finalExecution
  {
  }

  // The cycles the audit looks at are the live ones, in order.
  ghost predicate LiveOnes(active: seq<SourceCycle>, cycles: seq<SourceCycle>, sessionCount: nat, n: nat)
    requires n <= |cycles|
  {
    && (forall k :: 0 <= k < |active| ==>
          1 <= active[k].cycleId <= n && active[k] == cycles[active[k].cycleId - 1] && Live(active[k], sessionCount))
    && (forall k, m :: 0 <= k < m < |active| ==> active[k].cycleId < active[m].cycleId)
    && (forall i :: 0 <= i < n && Live(cycles[i], sessionCount) ==> cycles[i] in active)
  }

  lemma {:induction false} ActiveAre(cycles: seq<SourceCycle>, closes: seq<real>, schedule: seq<FinalEvent>, n: nat)
    requires Scheduling(cycles, closes, schedule) && n <= |cycles|
    ensures LiveOnes(ActiveCycles(cycles[..n], schedule), cycles, |closes|, n)
  {
    hide Scheduling, LiveOnes, HasEvents, Live;
    if n == 0 {
      NoneLive(cycles, |closes|);
    } else {
      ActiveAre(cycles, closes, schedule, n - 1);
      assert DropLast(cycles[..n]) == cycles[..n - 1];
      IdAt(cycles, closes, schedule, n - 1);
      LiveIff(cycles, closes, schedule, n - 1);
      OneMoreLive(ActiveCycles(cycles[..n - 1], schedule), cycles, |closes|, n);
    }
  }

  lemma NoneLive(cycles: seq<SourceCycle>, sessionCount: nat)
    ensures LiveOnes([], cycles, sessionCount, 0)
  {
  }

  lemma OneMoreLive(active: seq<SourceCycle>, cycles: seq<SourceCycle>, sessionCount: nat, n: nat)
    requires 0 < n <= |cycles| && LiveOnes(active, cycles, sessionCount, n - 1) && cycles[n - 1].cycleId == n
    ensures LiveOnes(active + if Live(cycles[n - 1], sessionCount) then [cycles[n - 1]] else [], cycles, sessionCount, n)
  {
    hide Live;
  }

  lemma IdAt(cycles: seq<SourceCycle>, closes: seq<real>, schedule: seq<FinalEvent>, i: nat)
    requires Scheduling(cycles, closes, schedule) && i < |cycles|
    ensures cycles[i].cycleId == i + 1
  {
  }

  lemma AllActive(cycles: seq<SourceCycle>, closes: seq<real>, schedule: seq<FinalEvent>) returns (active: seq<SourceCycle>)
    requires Scheduling(cycles, closes, schedule)
    ensures active == ActiveCycles(cycles, schedule) && LiveOnes(active, cycles, |closes|, |cycles|)
  {
    hide Scheduling, LiveOnes;
    active := ActiveCycles(cycles, schedule);
    assert cycles[..|cycles|] == cycles;
    ActiveAre(cycles, closes, schedule, |cycles|);
  }

  lemma LiveIff(cycles: seq<SourceCycle>, closes: seq<real>, schedule: seq<FinalEvent>, i: nat)
    requires Scheduling(cycles, closes, schedule) && i < |cycles|
    ensures HasEvents(schedule, cycles[i].cycleId) <==> Live(cycles[i], |closes|)
  {
    hide CompiledShape, CycleShape, KindsFit, CycleOrder, Scheduled, CycleTrade;
    ShapeAt(cycles, closes, i);
    if Live(cycles[i], |closes|) {
      OneExit(cycles, closes, schedule, i);
    } else if HasEvents(schedule, cycles[i].cycleId) {
      var k :| 0 <= k < |schedule| && schedule[k].cycleId == cycles[i].cycleId;
      var j := EventOfCycle(cycles, closes, schedule, schedule[k]);
    }
  }

  /* ---- What the rows say ---- */

  lemma {:induction false} RowsAre(cycles: seq<SourceCycle>, closes: seq<real>, schedule: seq<FinalEvent>, n: nat)
    requires Scheduling(cycles, closes, schedule)
    requires n <= |ActiveCycles(cycles, schedule)|
    ensures var active := ActiveCycles(cycles, schedule); var r := Rows(active, schedule, n);
            && r.Ok? && |r.value| == n
            && forall k :: 0 <= k < n ==> r.value[k] == RowFor(active[k], ExitSession(active[k]), NextOf(active, k))
  {
    hide Scheduling, HasEvents, ExitsOf, RowFor, NextOf, ActiveCycles;
    if n > 0 {
      RowsAre(cycles, closes, schedule, n - 1);
      var active := AllActive(cycles, closes, schedule);
      OneExit(cycles, closes, schedule, active[n - 1].cycleId - 1);
    }
  }

  // The audit of a compiled schedule never fails, and a row passes exactly when the next live
  // cycle first signals after the exit and after the recovery.  As the recovery always comes
  // first, that is the dispatcher's condition, except on the exit session itself.
  lemma AuditIsRelease(closes: seq<real>)
    requires Schedule(closes).Ok?
    ensures SourceCycles(closes).Ok? && Audit(closes).Ok?
    ensures var active, rows := ActiveCycles(SourceCycles(closes).value, Schedule(closes).value), Audit(closes).value;
            && |rows| == |active|
            && (forall k :: 0 <= k < |rows| ==> rows[k].fixedExit == ExitSession(active[k]) && rows[k].next == NextOf(active, k))
            && (forall k :: 0 <= k < |rows| - 1 ==>
                  (rows[k].noReentry <==> First(active[k + 1]) > ExitSession(active[k])))
            && (rows != [] ==> Last(rows).noReentry)
  {
    hide SourceCycles, Schedule, Scheduling, Rows, ActiveCycles;
    SchedulingIs(closes);
    var cycles, schedule := SourceCycles(closes).value, Schedule(closes).value;
    var active := ActiveCycles(cycles, schedule);
    RowsAre(cycles, closes, schedule, |active|);
    forall k | 0 <= k < |active| - 1 ensures active[k].recovery.Some? ==> active[k].recovery.value < First(active[k + 1]) {
      RecoveredBefore(cycles, closes, schedule, k);
    }
  }

  // There is one row for each live cycle, in order: its exit, its recovery, the later of the two, and
  // the next live cycle with its first signal.
  lemma AuditRows(closes: seq<real>) returns (active: seq<SourceCycle>)
    requires Schedule(closes).Ok?
    ensures SourceCycles(closes).Ok? && Audit(closes).Ok?
    ensures var cycles, rows := SourceCycles(closes).value, Audit(closes).value;
            && LiveOnes(active, cycles, |closes|, |cycles|) && |rows| == |active|
            && forall k :: 0 <= k < |rows| ==>
                 && rows[k].cycleId == active[k].cycleId && rows[k].fixedExit == ExitSession(active[k])
                 && rows[k].recovery == active[k].recovery
                 && rows[k].release == (if active[k].recovery.Some? && active[k].recovery.value > ExitSession(active[k])
                                        then active[k].recovery.value else ExitSession(active[k]))
                 && rows[k].next == if k < |rows| - 1 then Some((active[k + 1].cycleId, First(active[k + 1]))) else None
  {
    hide SourceCycles, Schedule, Scheduling, Rows, ActiveCycles, LiveOnes;
    SchedulingIs(closes);
    var cycles, schedule := SourceCycles(closes).value, Schedule(closes).value;
    active := AllActive(cycles, closes, schedule);
    RowsAre(cycles, closes, schedule, |active|);
  }

  lemma RecoveredBefore(cycles: seq<SourceCycle>, closes: seq<real>, schedule: seq<FinalEvent>, k: nat)
    requires Scheduling(cycles, closes, schedule) && k + 1 < |ActiveCycles(cycles, schedule)|
    ensures var active := ActiveCycles(cycles, schedule);
            active[k].recovery.Some? && active[k].recovery.value < First(active[k + 1])
  {
    hide CycleShape, KindsFit, CycleOrder, Scheduled, HasEvents, ActiveCycles;
    var active := AllActive(cycles, closes, schedule);
    var i, j := active[k].cycleId - 1, active[k + 1].cycleId - 1;
    assert i < j && active[k] == cycles[i] && active[k + 1] == cycles[j];
  }

  // The compiler's own release condition, for every cycle and every earlier live one.
  ghost predicate ClearOfHolds(cycles: seq<SourceCycle>, sessionCount: nat, i: nat)
    requires i < |cycles|
  {
    forall k :: 0 <= k < i && Live(cycles[k], sessionCount) ==> ExitSession(cycles[k]) <= First(cycles[i])
  }

  // When every row passes, the live cycles are clear of all earlier holds; the cancelled ones
  // the audit does not look at.
  lemma PassingAuditReleases(closes: seq<real>)
    requires Schedule(closes).Ok? && Audit(closes).Ok?
    requires forall k :: 0 <= k < |Audit(closes).value| ==> Audit(closes).value[k].noReentry
    ensures SourceCycles(closes).Ok?
    ensures var cycles := SourceCycles(closes).value;
            forall i :: 0 <= i < |cycles| && Live(cycles[i], |closes|) ==> ClearOfHolds(cycles, |closes|, i)
  {
    hide SourceCycles, Schedule, Audit, ActiveCycles, Scheduling, Live, LiveOnes;
    AuditIsRelease(closes);
    SchedulingIs(closes);
    var cycles, schedule := SourceCycles(closes).value, Schedule(closes).value;
    var active := AllActive(cycles, closes, schedule);
    forall i, k | 0 <= k < i < |cycles| && Live(cycles[i], |closes|) && Live(cycles[k], |closes|)
      ensures ExitSession(cycles[k]) <= First(cycles[i])
    {
      IdAt(cycles, closes, schedule, i);
      IdAt(cycles, closes, schedule, k);
      var a, b := PlacesOf(active, cycles, |closes|, k, i);
      ExitsBeforeFirst(active, a, b);
    }
  }

  lemma PlacesOf(active: seq<SourceCycle>, cycles: seq<SourceCycle>, sessionCount: nat, k: nat, i: nat) returns (a: nat, b: nat)
    requires LiveOnes(active, cycles, sessionCount, |cycles|) && k < i < |cycles|
    requires cycles[k].cycleId == k + 1 && cycles[i].cycleId == i + 1
    requires Live(cycles[k], sessionCount) && Live(cycles[i], sessionCount)
    ensures a < b < |active| && active[a] == cycles[k] && active[b] == cycles[i]
  {
    hide Live;
    assert cycles[i] in active && cycles[k] in active;
    a :| 0 <= a < |active| && active[a] == cycles[k];
    b :| 0 <= b < |active| && active[b] == cycles[i];
  }

  lemma {:induction false} ExitsBeforeFirst(active: seq<SourceCycle>, a: nat, b: nat)
    requires a < b < |active|
    requires forall k :: 0 <= k < |active| - 1 ==> First(active[k + 1]) > ExitSession(active[k])
    ensures ExitSession(active[a]) < First(active[b])
    decreases b
  {
    if a + 1 < b {
      ExitsBeforeFirst(active, a, b - 1);
      assert First(active[b - 1]) < ExitSession(active[b - 1]);
    }
    assert First(active[b - 1 + 1]) > ExitSession(active[b - 1]);
  }
}
