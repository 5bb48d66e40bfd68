// The online dispatcher refines the batch schedule: what a replay does is what
// compile_final_schedule says, for every close history on which the two agree about
// which cycles are cancelled, and both run to the end on exactly the stated histories.
module Refinement {
  import opened Common
  import opened RecoveryTables
  import opened Dispatcher
  import opened FinalSchedule
  import opened Timeline
  import opened ClosedForm
  import opened ProcessRefines
  import opened IngestRefines
  import opened ObserveRefines
  import SC = SourceCompiler

  /* ---- Every prefix of a replay is in closed form ---- */

  lemma StartIs(cycles: seq<Cycle>, closes: seq<real>)
    ensures StoreIs(cycles, closes, InitialDb(0.0), 0, 0, 0, 0)
  {
    hide Recovery;
    NoneStarted(cycles);
  }

  lemma {:induction false} NoneStarted(cycles: seq<Cycle>)
    ensures Started(cycles, 0) == 0
  {
    if cycles != [] {
      NoneStarted(DropLast(cycles));
    }
  }

  // One history row either raises, exactly when a signal is refused or an entry has no
  // exit on the calendar, or moves the closed form on by one session.
  lemma SessionStep(cycles: seq<Cycle>, closes: seq<real>, db: Db, t: nat)
    requires SC.PositiveCloses(closes) && SC.CompiledShape(cycles, closes, |closes|, |closes|)
    requires t < |closes| && OnTimeline(cycles, closes) && OkBefore(cycles, closes, t)
    requires StoreIs(cycles, closes, db, t, t, t, 4 * t)
    ensures var run := Session(db, AllEvents(cycles), t, closes[t], |closes|);
            && (run.outcome.Ok? <==> OkBefore(cycles, closes, t + 1))
            && (run.outcome.Ok? ==> StoreIs(cycles, closes, End(db, run.commits), t + 1, t + 1, t + 1, 4 * (t + 1)))
  {
    hide SC.CompiledShape, OnTimeline, StoreIs, Process, IngestAll, ObserveClose, SignalOk, EntryOk;
    assert OkBefore(cycles, closes, t + 1) <==>
           OkBefore(cycles, closes, t) && SignalOk(cycles, closes, t) && EntryOk(cycles, closes, t);
    hide OkBefore;
    ProcessStep(cycles, closes, db, t);
    var processed := Process(db, t, |closes|);
    if EntryOk(cycles, closes, t) {
      var db1 := End(db, processed.commits);
      IngestStep(cycles, closes, db1, t);
      var ingested := IngestAll(db1, EventsOn(AllEvents(cycles), t), t, |closes|);
      if SignalOk(cycles, closes, t) {
        var db2 := End(db1, ingested.commits);
        ObserveStep(cycles, closes, db2, t);
        var observed := ObserveClose(db2, t, closes[t], |closes|);
        StoreLemmas.EndAfter(db, processed.commits, ingested.commits);
        StoreLemmas.EndAfter(db, processed.commits + ingested.commits, observed.commits);
      }
    }
  }

  lemma {:induction false} ReplayIs(cycles: seq<Cycle>, closes: seq<real>, t: nat)
    requires SC.PositiveCloses(closes) && SC.CompiledShape(cycles, closes, |closes|, |closes|)
    requires t <= |closes| && OnTimeline(cycles, closes)
    ensures var r := ReplayTo(closes, AllEvents(cycles), t);
            && (r.Ok? <==> OkBefore(cycles, closes, t))
            && (r.Ok? ==> StoreIs(cycles, closes, r.value, t, t, t, 4 * t))
  {
    hide SC.CompiledShape, OnTimeline, StoreIs, Session, SignalOk, EntryOk;
    if t == 0 {
      StartIs(cycles, closes);
    } else {
      ReplayIs(cycles, closes, t - 1);
      if OkBefore(cycles, closes, t - 1) {
        SessionStep(cycles, closes, ReplayTo(closes, AllEvents(cycles), t - 1).value, t - 1);
      }
    }
  }

  /* ---- When a replay runs to the end ---- */

  // Every ladder signal of an uncut cycle comes before that cycle's own fixed exit ...
  ghost predicate SignalsBeforeExit(c: Cycle) {
    forall j :: 0 <= j < |SC.Ladder(c)| ==> SC.Ladder(c)[j].signal < ExitSession(c)
  }

  // ... and every cycle, cancelled ones included, first signals at or after the exit of
  // each earlier uncut one.  (Its recovery is always earlier.)
  ghost predicate AfterRelease(cycles: seq<Cycle>, closes: seq<real>, i: nat)
    requires i < |cycles|
  {
    forall k :: 0 <= k < i ==> CutShort(cycles[k], closes) || ExitSession(cycles[k]) <= SC.First(cycles[i])
  }

  ghost predicate Runs(cycles: seq<Cycle>, closes: seq<real>) {
    forall i :: 0 <= i < |cycles| ==>
      && CalendarReaches(cycles[i], Recovery(cycles[i], closes), |closes|)
      && (CutShort(cycles[i], closes) || SignalsBeforeExit(cycles[i]))
      && AfterRelease(cycles, closes, i)
  }

  lemma RunsIfOk(cycles: seq<Cycle>, closes: seq<real>)
    requires OnTimeline(cycles, closes) && OkBefore(cycles, closes, |closes|)
    ensures Runs(cycles, closes)
  {
    hide CycleFacts, Recovery, OnTimeline, OkBefore, CutShort, LadderFacts, EntryOk;
    forall i | 0 <= i < |cycles|
      ensures CalendarReaches(cycles[i], Recovery(cycles[i], closes), |closes|)
      ensures CutShort(cycles[i], closes) || SignalsBeforeExit(cycles[i])
      ensures AfterRelease(cycles, closes, i)
    {
      var c := cycles[i];
      FactsAt(cycles, closes, i);
      FirstOfLadder(c, closes);
      forall j | 0 <= j < |SC.Ladder(c)| ensures Accepted(cycles, closes, i, SC.Ladder(c)[j].signal) {
        LadderOnCalendar(c, closes, j);
        SignalOkAt(cycles, closes, SC.Ladder(c)[j].signal);
      }
      assert Accepted(cycles, closes, i, SC.Ladder(c)[0].signal);
      if !CutShort(c, closes) {
        EntryOkAt(cycles, closes, i);
      }
      CutIs(c, closes);
    }
  }

  lemma CutIs(c: Cycle, closes: seq<real>)
    ensures CutShort(c, closes) <==> RecoversFirst(c, Recovery(c, closes))
  {
  }

  lemma LadderOnCalendar(c: Cycle, closes: seq<real>, j: nat)
    requires CycleFacts(c, closes, c.cycleId) && j < |SC.Ladder(c)|
    ensures SC.Ladder(c)[j].signal < |closes|
  {
    LadderFactsAt(c, closes, j);
  }

  lemma SignalOkAt(cycles: seq<Cycle>, closes: seq<real>, t: nat)
    requires OkBefore(cycles, closes, |closes|) && t < |closes|
    ensures SignalOk(cycles, closes, t)
  {
  }

  lemma EntryOkAt(cycles: seq<Cycle>, closes: seq<real>, i: nat)
    requires OkBefore(cycles, closes, |closes|) && i < |cycles| && !CutShort(cycles[i], closes)
    requires EntrySession(cycles[i]) < |closes|
    ensures ExitSession(cycles[i]) < |closes|
  {
    hide CutShort, SignalOk;
    assert EntryOk(cycles, closes, EntrySession(cycles[i]));
  }

  lemma OkIfRuns(cycles: seq<Cycle>, closes: seq<real>)
    requires OnTimeline(cycles, closes) && Runs(cycles, closes)
    ensures OkBefore(cycles, closes, |closes|)
  {
    hide CycleFacts, Recovery, OnTimeline, LadderFacts;
    forall t | 0 <= t < |closes| ensures SignalOk(cycles, closes, t) && EntryOk(cycles, closes, t) {
      forall i, j | 0 <= i < |cycles| && 0 <= j < |SC.Ladder(cycles[i])| && SC.Ladder(cycles[i])[j].signal == t
        ensures Accepted(cycles, closes, i, t)
      {
        FactsAt(cycles, closes, i);
        LadderBefore(cycles[i], closes, j);
        assert CalendarReaches(cycles[i], Recovery(cycles[i], closes), |closes|);
      }
      forall i | 0 <= i < |cycles| && !CutShort(cycles[i], closes) ensures ExitSession(cycles[i]) < |closes| {
        assert CalendarReaches(cycles[i], Recovery(cycles[i], closes), |closes|);
      }
    }
  }

  // The replay of a compiled history returns exactly when it runs, and then its journal
  // holds exactly the trades of the uncut cycles in date order and exactly one return to
  // NORMAL per recovered cycle, at its cancellation or at the later of exit and recovery.
  lemma ReplayMeaning(closes: seq<real>)
    requires SC.SourceCycles(closes).Ok?
    requires SignalsPrecedeRecovery(SC.SourceCycles(closes).value, closes)
    ensures var cycles := SC.SourceCycles(closes).value;
            && (Replay(closes).Ok? <==> Runs(cycles, closes))
            && (Replay(closes).Ok? ==>
                  && StoreIs(cycles, closes, Replay(closes).value, |closes|, |closes|, |closes|, 4 * |closes|)
                  && TradesAre(cycles, closes, TradesIn(Replay(closes).value.transitions), |closes|)
                  && (forall x :: x in ReturnsIn(Replay(closes).value.transitions) <==>
                        && 1 <= x.cycleId <= |cycles| && Recovery(cycles[x.cycleId - 1], closes) < |closes|
                        && x.session == ReturnSession(cycles[x.cycleId - 1], closes)))
  {
    hide SC.CompiledShape, OnTimeline, Recovery, OkBefore, CoreAt, TableIs, TradesAre, KeysBelow, ReplayTo;
    SC.CompilerIsTotal(closes);
    var cycles, n := SC.SourceCycles(closes).value, |closes|;
    CompiledOnTimeline(cycles, closes);
    ReplayIs(cycles, closes, n);
    var r := ReplayTo(closes, AllEvents(cycles), n);
    if r.Ok? {
      RunsIfOk(cycles, closes);
      TableFacts.StateIsValid(cycles, closes, r.value.state, n, n, n);
      forall x ensures Returned(cycles, closes, x, n, n) <==>
        1 <= x.cycleId <= |cycles| && Recovery(cycles[x.cycleId - 1], closes) < n
        && x.session == ReturnSession(cycles[x.cycleId - 1], closes)
      {
        if 1 <= x.cycleId <= |cycles| {
          assert CalendarReaches(cycles[x.cycleId - 1], Recovery(cycles[x.cycleId - 1], closes), n);
        }
      }
    } else if Runs(cycles, closes) {
      OkIfRuns(cycles, closes);
    }
  }

  /* ---- The batch schedule ---- */

  // The dispatcher and the compiler agree which cycles are cancelled.
  ghost predicate SameCuts(cycles: seq<Cycle>, closes: seq<real>) {
    forall i :: 0 <= i < |cycles| ==>
      (CutShort(cycles[i], closes) <==> RecoversFirst(cycles[i], BatchRecovery(cycles[i], |closes|)))
  }

  // In terms of the closes: whenever a close between the first signal and the entry comes
  // within the tolerance of the old ATH, the compiler has the recovery before the entry too.
  lemma SameCutsInCloses(closes: seq<real>)
    requires SC.SourceCycles(closes).Ok?
    ensures var cycles := SC.SourceCycles(closes).value;
            SameCuts(cycles, closes) <==>
            forall i, u :: 0 <= i < |cycles| && SC.First(cycles[i]) <= u < |closes| && u < EntrySession(cycles[i])
                           && closes[u] + TOL >= cycles[i].oldAth ==>
              RecoversFirst(cycles[i], BatchRecovery(cycles[i], |closes|))
  {
    hide SC.CompiledShape, SC.SourceCycles, SC.CycleShape, SC.RecoveryShape, SC.PositiveCloses;
    CompiledUsable(closes);
    SC.CompilerIsTotal(closes);
    var cycles := SC.SourceCycles(closes).value;
    forall i | 0 <= i < |cycles|
      ensures CutShort(cycles[i], closes) <==>
              (RecoversFirst(cycles[i], BatchRecovery(cycles[i], |closes|))
               || exists u :: SC.First(cycles[i]) <= u < |closes| && u < EntrySession(cycles[i]) && closes[u] + TOL >= cycles[i].oldAth)
    {
      ShapeAt(cycles, closes, i);
      FirstOnCalendar(cycles[i], closes);
      OnlineNoLater(cycles[i], closes);
    }
  }

  lemma FirstOnCalendar(c: Cycle, closes: seq<real>)
    requires SC.PositiveCloses(closes) && SC.CycleShape(c, closes, |closes|, |closes|)
    ensures SC.First(c) < |closes|
  {
    LadderSignals(c, closes);
  }

  // The dispatcher never sees a recovery later than the compiler.
  lemma OnlineNoLater(c: Cycle, closes: seq<real>)
    requires SC.PositiveCloses(closes) && SC.CycleShape(c, closes, |closes|, |closes|)
    requires SC.RecoveryShape(c, closes, |closes|)
    ensures Recovery(c, closes) <= BatchRecovery(c, |closes|)
  {
    if c.recovery.Some? {
      RecoveryBounds(c, closes);
    }
  }

  // Given that agreement, the replay returns exactly when the compiler does and no signal
  // of a live cycle comes too late or too early.
  lemma RunsIffScheduled(closes: seq<real>)
    requires SC.SourceCycles(closes).Ok? && SameCuts(SC.SourceCycles(closes).value, closes)
    ensures var cycles := SC.SourceCycles(closes).value;
            Runs(cycles, closes) <==>
              && Schedule(closes).Ok?
              && (forall i :: 0 <= i < |cycles| ==>
                    (CutShort(cycles[i], closes) || SignalsBeforeExit(cycles[i])) && AfterRelease(cycles, closes, i))
  {
    hide Recovery, AfterRelease, Schedule;
    var cycles, n := SC.SourceCycles(closes).value, |closes|;
    ScheduleMeaning(closes);
    forall i | 0 <= i < |cycles|
      ensures CalendarReaches(cycles[i], Recovery(cycles[i], closes), n) <==>
              CalendarReaches(cycles[i], BatchRecovery(cycles[i], n), n)
    {
    }
  }

  lemma SameScheduled(cycles: seq<Cycle>, closes: seq<real>, x: Trade)
    requires SameCuts(cycles, closes)
    ensures Scheduled(cycles, Recoveries(cycles, closes), x) <==> Scheduled(cycles, BatchRecoveries(cycles, |closes|), x)
  {
    hide Recovery, CycleTrade;
    var a, b := Recoveries(cycles, closes), BatchRecoveries(cycles, |closes|);
    forall i | 0 <= i < |cycles| ensures RecoversFirst(cycles[i], a[i]) <==> RecoversFirst(cycles[i], b[i]) {
      CutIs(cycles[i], closes);
    }
  }

  // Two lists of trades in date order with the same members are the same list.
  lemma {:induction false} SameTrades(a: seq<Trade>, b: seq<Trade>)
    requires Chronological(a) && Chronological(b)
    requires forall x :: x in a <==> x in b
    ensures a == b
  {
    EmptyTogether(a, b);
    EmptyTogether(b, a);
    if a != [] {
      SameLast(a, b);
      SameLast(b, a);
      var a', b' := DropLast(a), DropLast(b);
      forall x ensures x in a' <==> x in b' {
        FrontMembers(a, x);
        FrontMembers(b, x);
      }
      SameTrades(a', b');
      assert a == a' + [Last(a)] && b == b' + [Last(b)];
    }
  }

  lemma EmptyTogether(a: seq<Trade>, b: seq<Trade>)
    requires forall x :: x in a ==> x in b
    ensures a != [] ==> b != []
  {
    if a != [] {
      assert a[0] in b;
    }
  }

  lemma SameLast(a: seq<Trade>, b: seq<Trade>)
    requires Chronological(a) && Chronological(b) && a != [] && b != []
    requires forall x :: x in a <==> x in b
    ensures Last(a) == Last(b)
  {
    assert Last(a) in b && Last(b) in a;
    var i :| 0 <= i < |b| && b[i] == Last(a);
    var j :| 0 <= j < |a| && a[j] == Last(b);
    assert Last(a).session <= Last(b).session <= Last(a).session;
  }

  lemma FrontMembers(a: seq<Trade>, x: Trade)
    requires Chronological(a) && a != []
    ensures x in DropLast(a) <==> x in a && x != Last(a)
  {
    if x in DropLast(a) {
      var i :| 0 <= i < |a| - 1 && a[i] == x;
      assert a[i].session < a[|a| - 1].session;
    }
  }

  // Each uncancelled cycle leaves before the next one enters.
  ghost predicate InSequence(cycles: seq<Cycle>, recoveries: seq<nat>)
    requires |recoveries| == |cycles|
  {
    forall k, i :: 0 <= k < i < |cycles| && !RecoversFirst(cycles[k], recoveries[k]) && !RecoversFirst(cycles[i], recoveries[i]) ==>
      ExitSession(cycles[k]) < EntrySession(cycles[i])
  }

  // The compiled schedule, sorted by cycle, is in date order as well exactly then.
  lemma ScheduleChronological(closes: seq<real>)
    requires SC.SourceCycles(closes).Ok? && Schedule(closes).Ok?
    ensures Chronological(TradesOf(Schedule(closes).value)) <==>
            InSequence(SC.SourceCycles(closes).value, BatchRecoveries(SC.SourceCycles(closes).value, |closes|))
  {
    hide SC.CompiledShape, SC.SourceCycles, Schedule, Scheduled, SC.CycleShape, SC.RecoveryShape, CalendarReaches;
    ScheduleMeaning(closes);
    CompiledUsable(closes);
    SC.CompilerIsTotal(closes);
    var cycles, events := SC.SourceCycles(closes).value, Schedule(closes).value;
    var trades, recoveries := TradesOf(events), BatchRecoveries(cycles, |closes|);
    if InSequence(cycles, recoveries) {
      forall i, j | 0 <= i < j < |trades| ensures trades[i].session < trades[j].session {
        assert trades[i] in trades && trades[j] in trades;
        if events[i].cycleId < events[j].cycleId {
          TradesInCycleOrder(cycles, closes, trades[i], trades[j]);
        }
      }
      assert Chronological(trades);
    }
    if Chronological(trades) {
      forall k, i | 0 <= k < i < |cycles| && !RecoversFirst(cycles[k], recoveries[k]) && !RecoversFirst(cycles[i], recoveries[i])
        ensures ExitSession(cycles[k]) < EntrySession(cycles[i])
      {
        var x, y := ExitAndEntry(cycles, closes, k, i);
        LaterCycleLater(events, x, y);
      }
      assert InSequence(cycles, recoveries);
    }
  }

  // The exit of one uncancelled cycle and the entry of a later one are both scheduled.
  lemma ExitAndEntry(cycles: seq<Cycle>, closes: seq<real>, k: nat, i: nat) returns (x: Trade, y: Trade)
    requires SC.PositiveCloses(closes) && SC.CompiledShape(cycles, closes, |closes|, |closes|) && k < i < |cycles|
    requires var recoveries := BatchRecoveries(cycles, |closes|);
             !RecoversFirst(cycles[k], recoveries[k]) && !RecoversFirst(cycles[i], recoveries[i])
    ensures x.session == ExitSession(cycles[k]) && y.session == EntrySession(cycles[i]) && x.cycleId < y.cycleId
    ensures Scheduled(cycles, BatchRecoveries(cycles, |closes|), x) && Scheduled(cycles, BatchRecoveries(cycles, |closes|), y)
  {
    hide SC.CompiledShape, SC.CycleShape, SC.RecoveryShape, SC.Ladder;
    ShapeAt(cycles, closes, k);
    ShapeAt(cycles, closes, i);
    LadderSignals(cycles[i], closes);
    x := Trade(cycles[k].cycleId, ExitSession(cycles[k]), 0);
    y := Trade(cycles[i].cycleId, EntrySession(cycles[i]), SC.Ladder(cycles[i])[0].target);
    assert Maturity(SC.Ladder(cycles[i])[0]) == EntrySession(cycles[i]);
    assert CycleTrade(cycles[k], x) && CycleTrade(cycles[i], y);
  }

  lemma LaterCycleLater(events: seq<FinalEvent>, x: Trade, y: Trade)
    requires CycleOrder(events) && Chronological(TradesOf(events))
    requires x in TradesOf(events) && y in TradesOf(events) && x.cycleId < y.cycleId
    ensures x.session < y.session
  {
    var trades := TradesOf(events);
    var a :| 0 <= a < |trades| && trades[a] == x;
    var b :| 0 <= b < |trades| && trades[b] == y;
    assert !(b < a);
  }

  lemma TradesInCycleOrder(cycles: seq<Cycle>, closes: seq<real>, x: Trade, y: Trade)
    requires SC.PositiveCloses(closes) && SC.CompiledShape(cycles, closes, |closes|, |closes|) && x.cycleId < y.cycleId
    requires var recoveries := BatchRecoveries(cycles, |closes|);
             InSequence(cycles, recoveries) && Scheduled(cycles, recoveries, x) && Scheduled(cycles, recoveries, y)
    ensures x.session < y.session
  {
    hide SC.CompiledShape, SC.CycleShape, SC.RecoveryShape, CycleTrade;
    var recoveries := BatchRecoveries(cycles, |closes|);
    var i :| 0 <= i < |cycles| && !RecoversFirst(cycles[i], recoveries[i]) && CycleTrade(cycles[i], x);
    var j :| 0 <= j < |cycles| && !RecoversFirst(cycles[j], recoveries[j]) && CycleTrade(cycles[j], y);
    ShapeAt(cycles, closes, i);
    ShapeAt(cycles, closes, j);
    TradeCycle(cycles[i], x);
    TradeCycle(cycles[j], y);
    BatchWindow(cycles[i], closes, x);
    BatchWindow(cycles[j], closes, y);
  }

  lemma BatchWindow(c: Cycle, closes: seq<real>, x: Trade)
    requires SC.PositiveCloses(closes) && SC.CycleShape(c, closes, |closes|, |closes|) && CycleTrade(c, x)
    ensures EntrySession(c) <= x.session <= ExitSession(c)
  {
    hide SC.CycleShape, SC.Ladder;
    LadderSignals(c, closes);
    if x.session != ExitSession(c) {
      var j :| 0 <= j < |SC.Ladder(c)| && Maturity(SC.Ladder(c)[j]) == x.session && x.session < ExitSession(c);
      assert j > 0 ==> SC.Ladder(c)[0].signal < SC.Ladder(c)[j].signal;
    }
  }

  // A replay that runs has its cycles in sequence.
  lemma RunsInSequence(cycles: seq<Cycle>, closes: seq<real>)
    requires Runs(cycles, closes) && SameCuts(cycles, closes)
    ensures InSequence(cycles, BatchRecoveries(cycles, |closes|))
  {
    hide Recovery, CalendarReaches;
    var recoveries := BatchRecoveries(cycles, |closes|);
    forall k, i | 0 <= k < i < |cycles| && !RecoversFirst(cycles[k], recoveries[k]) && !RecoversFirst(cycles[i], recoveries[i])
      ensures ExitSession(cycles[k]) < EntrySession(cycles[i])
    {
      assert AfterRelease(cycles, closes, i);
    }
  }

  // The main theorem.  On any history that both sides run to the end, the journal of the
  // online store is the compiled schedule, trade for trade and in order, if and only if
  // the two agree which cycles are cancelled.
  lemma OnlineRefinesBatch(closes: seq<real>)
    requires Schedule(closes).Ok? && Replay(closes).Ok?
    requires SignalsPrecedeRecovery(SC.SourceCycles(closes).value, closes)
    ensures TradesIn(Replay(closes).value.transitions) == TradesOf(Schedule(closes).value) <==>
            SameCuts(SC.SourceCycles(closes).value, closes)
  {
    hide Recovery, SignalsPrecedeRecovery, Schedule, Replay, Runs, SC.SourceCycles, StoreIs, Scheduled, SameCuts, SC.PositiveCloses;
    CompiledWhenScheduled(closes);
    var cycles := SC.SourceCycles(closes).value;
    var online, batch := TradesIn(Replay(closes).value.transitions), TradesOf(Schedule(closes).value);
    ReplayMeaning(closes);
    ScheduleMeaning(closes);
    if SameCuts(cycles, closes) {
      RunsInSequence(cycles, closes);
      ScheduleChronological(closes);
      forall x ensures x in online <==> x in batch {
        SameScheduled(cycles, closes, x);
        InTime(cycles, closes, x);
      }
      SameTrades(online, batch);
    }
    if online == batch {
      forall x ensures Scheduled(cycles, Recoveries(cycles, closes), x) <==> Scheduled(cycles, BatchRecoveries(cycles, |closes|), x) {
        InTime(cycles, closes, x);
      }
      CutsFromTrades(cycles, closes);
    }
  }

  lemma CompiledWhenScheduled(closes: seq<real>)
    requires Schedule(closes).Ok?
    ensures SC.SourceCycles(closes).Ok?
  {
  }

  lemma InTime(cycles: seq<Cycle>, closes: seq<real>, x: Trade)
    requires SC.SourceCycles(closes) == Ok(cycles) && SignalsPrecedeRecovery(cycles, closes) && Runs(cycles, closes)
    ensures Scheduled(cycles, Recoveries(cycles, closes), x) ==> x.session < |closes|
  {
    hide Recovery, CycleTrade, SignalsPrecedeRecovery, SC.CompiledShape, OnTimeline, CycleFacts;
    SC.CompilerIsTotal(closes);
    CompiledOnTimeline(cycles, closes);
    if Scheduled(cycles, Recoveries(cycles, closes), x) {
      var i :| 0 <= i < |cycles| && !RecoversFirst(cycles[i], Recoveries(cycles, closes)[i]) && CycleTrade(cycles[i], x);
      FactsAt(cycles, closes, i);
      TradeWindow(cycles[i], closes, x);
      assert CalendarReaches(cycles[i], Recovery(cycles[i], closes), |closes|);
    }
  }

  // A cycle cancelled on one side only shows in the trades: its exit is missing there.
  lemma CutsFromTrades(cycles: seq<Cycle>, closes: seq<real>)
    requires SC.SourceCycles(closes) == Ok(cycles)
    requires forall x :: Scheduled(cycles, Recoveries(cycles, closes), x) <==> Scheduled(cycles, BatchRecoveries(cycles, |closes|), x)
    ensures SameCuts(cycles, closes)
  {
    hide Recovery, SC.CompiledShape, CycleTrade, Scheduled;
    SC.CompilerIsTotal(closes);
    var a, b := Recoveries(cycles, closes), BatchRecoveries(cycles, |closes|);
    forall i | 0 <= i < |cycles| ensures RecoversFirst(cycles[i], a[i]) <==> RecoversFirst(cycles[i], b[i]) {
      ExitScheduled(cycles, closes, a, i);
      ExitScheduled(cycles, closes, b, i);
    }
    forall i | 0 <= i < |cycles|
      ensures CutShort(cycles[i], closes) <==> RecoversFirst(cycles[i], BatchRecovery(cycles[i], |closes|))
    {
      assert RecoversFirst(cycles[i], a[i]) <==> RecoversFirst(cycles[i], b[i]);
      CutIs(cycles[i], closes);
    }
  }

  lemma ExitScheduled(cycles: seq<Cycle>, closes: seq<real>, recoveries: seq<nat>, i: nat)
    requires SC.PositiveCloses(closes) && SC.CompiledShape(cycles, closes, |closes|, |closes|)
    requires |recoveries| == |cycles| && i < |cycles|
    ensures Scheduled(cycles, recoveries, Trade(i + 1, ExitSession(cycles[i]), 0)) <==> !RecoversFirst(cycles[i], recoveries[i])
  {
    hide SC.CompiledShape, SC.CycleShape;
    var x := Trade(i + 1, ExitSession(cycles[i]), 0);
    ShapeAt(cycles, closes, i);
    if Scheduled(cycles, recoveries, x) {
      var k :| 0 <= k < |cycles| && !RecoversFirst(cycles[k], recoveries[k]) && CycleTrade(cycles[k], x);
      ShapeAt(cycles, closes, k);
    }
    if !RecoversFirst(cycles[i], recoveries[i]) {
      assert CycleTrade(cycles[i], x);
    }
  }

  /* ---- Histories on which they agree ---- */

  // No close reaches the old ATH while the crash is still running (the handoff then comes first).
  ghost predicate NoPeakInCrash(cycles: seq<Cycle>, closes: seq<real>) {
    forall i :: 0 <= i < |cycles| && SC.HandedOff(cycles[i]) && Last(cycles[i].events).signal < |closes| ==>
      closes[Last(cycles[i].events).signal] < cycles[i].oldAth
  }

  // No close is below an old ATH by the tolerance or less.
  ghost predicate NoNearMiss(cycles: seq<Cycle>, closes: seq<real>) {
    forall i, u :: 0 <= i < |cycles| && SC.First(cycles[i]) <= u < |closes| && closes[u] < cycles[i].oldAth ==>
      closes[u] + TOL < cycles[i].oldAth
  }

  // Then both sides date every recovery alike.
  lemma SameRecovery(c: Cycle, closes: seq<real>)
    requires SC.PositiveCloses(closes)
    requires SC.CycleShape(c, closes, |closes|, |closes|) && SC.RecoveryShape(c, closes, |closes|)
    requires SC.HandedOff(c) ==> closes[Last(c.events).signal] < c.oldAth
    requires forall u :: SC.First(c) <= u < |closes| && closes[u] < c.oldAth ==> closes[u] + TOL < c.oldAth
    ensures Recovery(c, closes) == BatchRecovery(c, |closes|)
    ensures |SC.Ladder(c)| > 0 && Last(SC.Ladder(c)).signal < Recovery(c, closes)
  {
    var n, r := |closes|, BatchRecovery(c, |closes|);
    LadderSignals(c, closes);
    var ladder := SC.Ladder(c);
    assert SC.First(c) <= ladder[|ladder| - 1].signal < n by {
      if |ladder| > 1 {
        assert ladder[0].signal < ladder[|ladder| - 1].signal;
      }
    }
    forall u | SC.First(c) <= u < r ensures closes[u] < c.oldAth {
      BelowUntilRecovery(c, closes, u);
    }
    if SC.HandedOff(c) {
      assert c.events[|c.events| - 2] == Last(ladder);
    }
  }

  lemma BelowUntilRecovery(c: Cycle, closes: seq<real>, u: nat)
    requires SC.PositiveCloses(closes)
    requires SC.CycleShape(c, closes, |closes|, |closes|) && SC.RecoveryShape(c, closes, |closes|)
    requires SC.HandedOff(c) ==> closes[Last(c.events).signal] < c.oldAth
    requires SC.First(c) <= u < BatchRecovery(c, |closes|) && u < |closes|
    ensures closes[u] < c.oldAth
  {
  }

  lemma AgreeingHistories(closes: seq<real>)
    requires SC.SourceCycles(closes).Ok?
    requires NoPeakInCrash(SC.SourceCycles(closes).value, closes) && NoNearMiss(SC.SourceCycles(closes).value, closes)
    ensures SignalsPrecedeRecovery(SC.SourceCycles(closes).value, closes)
    ensures SameCuts(SC.SourceCycles(closes).value, closes)
    ensures Recoveries(SC.SourceCycles(closes).value, closes) == BatchRecoveries(SC.SourceCycles(closes).value, |closes|)
  {
    hide Recovery, SC.CompiledShape, SC.CycleShape, SC.RecoveryShape;
    SC.CompilerIsTotal(closes);
    var cycles := SC.SourceCycles(closes).value;
    forall i | 0 <= i < |cycles|
      ensures |SC.Ladder(cycles[i])| > 0 && Last(SC.Ladder(cycles[i])).signal < Recovery(cycles[i], closes)
      ensures Recovery(cycles[i], closes) == BatchRecovery(cycles[i], |closes|)
    {
      ShapeAt(cycles, closes, i);
      HandoffOnCalendar(cycles[i], closes);
      SameRecovery(cycles[i], closes);
    }
  }

  lemma HandoffOnCalendar(c: Cycle, closes: seq<real>)
    requires SC.PositiveCloses(closes) && SC.CycleShape(c, closes, |closes|, |closes|)
    ensures |c.events| > 0 && Last(c.events).signal < |closes|
  {
    assert SC.EventFits(c.events[|c.events| - 1], c, closes, |closes|, |closes|);
  }

  // Under the two price conditions the dispatcher runs exactly when the schedule compiles
  // and no live cycle signals too late or too early, and then it executes that schedule
  // and returns to NORMAL for each recovered cycle when it should.
  lemma OnlineIsBatch(closes: seq<real>)
    requires SC.SourceCycles(closes).Ok?
    requires NoPeakInCrash(SC.SourceCycles(closes).value, closes) && NoNearMiss(SC.SourceCycles(closes).value, closes)
    ensures var cycles := SC.SourceCycles(closes).value;
            && (Replay(closes).Ok? <==>
                  && Schedule(closes).Ok?
                  && (forall i :: 0 <= i < |cycles| ==>
                        (CutShort(cycles[i], closes) || SignalsBeforeExit(cycles[i])) && AfterRelease(cycles, closes, i)))
            && (Replay(closes).Ok? ==>
                  && TradesIn(Replay(closes).value.transitions) == TradesOf(Schedule(closes).value)
                  && (forall x :: x in ReturnsIn(Replay(closes).value.transitions) <==>
                        && 1 <= x.cycleId <= |cycles|
                        && cycles[x.cycleId - 1].recovery.Some?
                        && var back := cycles[x.cycleId - 1].recovery.value;
                           x.session == if back < EntrySession(cycles[x.cycleId - 1]) then back
                                        else Later(ExitSession(cycles[x.cycleId - 1]), back)))
  {
    hide Recovery, SignalsPrecedeRecovery, Schedule, Replay, Runs, SC.SourceCycles, StoreIs, SameCuts, SC.PositiveCloses,
      NoPeakInCrash, NoNearMiss, TradesAre, AfterRelease, SC.CompiledShape;
    CompiledUsable(closes);
    SC.CompilerIsTotal(closes);
    AgreeingHistories(closes);
    ReplayMeaning(closes);
    RunsIffScheduled(closes);
    if Replay(closes).Ok? {
      OnlineRefinesBatch(closes);
      var cycles := SC.SourceCycles(closes).value;
      forall i | 0 <= i < |cycles| ensures RecoveredAt(cycles[i], closes) {
        RecoveryDate(cycles, closes, i);
      }
    }
  }

  lemma CompiledUsable(closes: seq<real>)
    requires SC.SourceCycles(closes).Ok?
    ensures |closes| > 0 && SC.PositiveCloses(closes)
  {
  }

  ghost predicate RecoveredAt(c: Cycle, closes: seq<real>) {
    && (Recovery(c, closes) < |closes| <==> c.recovery.Some?)
    && (c.recovery.Some? ==>
          ReturnSession(c, closes) ==
          (if c.recovery.value < EntrySession(c) then c.recovery.value else Later(ExitSession(c), c.recovery.value)))
  }

  lemma RecoveryDate(cycles: seq<Cycle>, closes: seq<real>, i: nat)
    requires SC.PositiveCloses(closes) && SC.CompiledShape(cycles, closes, |closes|, |closes|)
    requires Recoveries(cycles, closes) == BatchRecoveries(cycles, |closes|) && i < |cycles|
    ensures RecoveredAt(cycles[i], closes)
  {
    hide Recovery, SC.CycleShape, SC.CompiledShape;
    ShapeAt(cycles, closes, i);
    assert Recoveries(cycles, closes)[i] == BatchRecoveries(cycles, |closes|)[i];
  }
}
