// What a non-raising replay shows after each session: the delay line in closed form, a
// clock that never moves, and a snapshot the runtime adapter always accepts.
module DelayLine {
  import opened Common
  import opened RecoveryTables
  import opened Dispatcher
  import opened StoreLemmas
  import opened FinalSchedule
  import opened Timeline
  import opened ClosedForm
  import opened TableFacts
  import opened Refinement
  import SC = SourceCompiler

  // The store after session s, in a replay that has not raised.
  ghost predicate After(closes: seq<real>, s: nat, db: Db) {
    && s < |closes| && SC.SourceCycles(closes).Ok?
    && SignalsPrecedeRecovery(SC.SourceCycles(closes).value, closes)
    && ReplayTo(closes, AllEvents(SC.SourceCycles(closes).value), s + 1) == Ok(db)
  }

  lemma AfterFacts(closes: seq<real>, s: nat, db: Db) returns (cycles: seq<Cycle>)
    requires After(closes, s, db)
    ensures SC.SourceCycles(closes) == Ok(cycles) && s < |closes|
    ensures OnTimeline(cycles, closes) && OkBefore(cycles, closes, s + 1)
    ensures CoreOfState(db.state) == CoreAt(cycles, closes, s + 1, s + 1, s + 1)
    ensures TableIs(cycles, closes, db.events, s + 1, s + 1, s + 1)
    ensures ValidState(db.state)
  {
    hide SC.CompiledShape, SC.SourceCycles, OnTimeline, OkBefore, ReplayTo, SignalsPrecedeRecovery, CoreAt, TableIs, StoreIs,
      SC.PositiveCloses, ValidState;
    cycles := SC.SourceCycles(closes).value;
    CompiledUsable(closes);
    SC.CompilerIsTotal(closes);
    CompiledOnTimeline(cycles, closes);
    ReplayIs(cycles, closes, s + 1);
    StoreFacts(cycles, closes, db, s + 1);
  }

  lemma StoreFacts(cycles: seq<Cycle>, closes: seq<real>, db: Db, t: nat)
    requires OnTimeline(cycles, closes) && StoreIs(cycles, closes, db, t, t, t, 4 * t)
    ensures CoreOfState(db.state) == CoreAt(cycles, closes, t, t, t)
    ensures TableIs(cycles, closes, db.events, t, t, t) && ValidState(db.state)
  {
    hide OnTimeline, CoreAt, TableIs, TradesAre, ReturnsAre, KeysBelow, ValidState;
    StateIsValid(cycles, closes, db.state, t, t, t);
  }

  // Ladder event j of cycle i is in force on session s: 41 sessions old or older, and its
  // cycle neither cancelled nor past its exit.
  ghost predicate InForce(cycles: seq<Cycle>, closes: seq<real>, s: nat, i: nat, j: nat) {
    && i < |cycles| && j < |SC.Ladder(cycles[i])|
    && !CutShort(cycles[i], closes)
    && SC.Ladder(cycles[i])[j].signal + 41 <= s < SC.First(cycles[i]) + 41 + 378
  }

  // Only the current cycle can be in force.
  lemma InForceIsCurrent(cycles: seq<Cycle>, closes: seq<real>, s: nat, i: nat, j: nat)
    requires OnTimeline(cycles, closes) && OkBefore(cycles, closes, s + 1) && InForce(cycles, closes, s, i, j)
    ensures i + 1 == Started(cycles, s + 1)
    ensures EntrySession(cycles[i]) <= s < ExitSession(cycles[i])
  {
    hide CycleFacts, Recovery, OnTimeline, OkBefore, CutShort;
    StartedBounds(cycles, closes, s + 1);
    FactsAt(cycles, closes, i);
    LadderBefore(cycles[i], closes, j);
    var k := Started(cycles, s + 1);
    if i + 1 < k {
      EarlierCycleOver(cycles, closes, i, k - 1, s + 1);
    }
  }

  // The durable target after session s is the largest ladder target in force, or zero.
  lemma DelayLineTarget(closes: seq<real>, s: nat, db: Db)
    requires After(closes, s, db)
    ensures var cycles := SC.SourceCycles(closes).value;
            && (forall i: nat, j: nat :: InForce(cycles, closes, s, i, j) ==> 0 < SC.Ladder(cycles[i])[j].target <= db.state.target)
            && (db.state.target != 0 ==>
                  exists i: nat, j: nat :: InForce(cycles, closes, s, i, j) && SC.Ladder(cycles[i])[j].target == db.state.target
                                 && db.state.cycleId == Some(cycles[i].cycleId))
  {
    hide After, SC.SourceCycles, OnTimeline, OkBefore, TableIs, ValidState, CoreAt, CoreOfState, ActiveAt;
    var cycles := AfterFacts(closes, s, db);
    ActiveState(cycles, closes, s, db.state);
    forall i: nat, j: nat | InForce(cycles, closes, s, i, j) ensures 0 < SC.Ladder(cycles[i])[j].target <= db.state.target {
      InForceBounds(cycles, closes, s, i, j);
    }
    if db.state.target != 0 {
      var i, j := SomeInForce(cycles, closes, s);
      assert InForce(cycles, closes, s, i, j) && SC.Ladder(cycles[i])[j].target == db.state.target;
    }
  }

  lemma InForceBounds(cycles: seq<Cycle>, closes: seq<real>, s: nat, i: nat, j: nat)
    requires OnTimeline(cycles, closes) && OkBefore(cycles, closes, s + 1) && InForce(cycles, closes, s, i, j)
    ensures ActiveAt(cycles, closes, s) && i + 1 == Started(cycles, s + 1)
    ensures 0 < SC.Ladder(cycles[i])[j].target <= TargetBy(SC.Ladder(cycles[i]), s + 1)
  {
    hide CycleFacts, Recovery, OnTimeline, OkBefore, CutShort;
    InForceIsCurrent(cycles, closes, s, i, j);
    FactsAt(cycles, closes, i);
    TargetIsLargest(cycles[i], closes, s + 1, j);
  }

  lemma SomeInForce(cycles: seq<Cycle>, closes: seq<real>, s: nat) returns (i: nat, j: nat)
    requires OnTimeline(cycles, closes) && ActiveAt(cycles, closes, s)
    ensures i + 1 == Started(cycles, s + 1) <= |cycles|
    ensures InForce(cycles, closes, s, i, j) && SC.Ladder(cycles[i])[j].target == TargetBy(SC.Ladder(cycles[i]), s + 1)
  {
    hide CycleFacts, Recovery, OnTimeline, CutShort;
    i := Started(cycles, s + 1) - 1;
    FactsAt(cycles, closes, i);
    LadderRises(cycles[i], closes);
    FirstOfLadder(cycles[i], closes);
    j := MaturedIndex(SC.Ladder(cycles[i]), s + 1);
  }

  lemma TargetIsLargest(c: Cycle, closes: seq<real>, executed: nat, j: nat)
    requires CycleFacts(c, closes, c.cycleId) && j < |SC.Ladder(c)| && Maturity(SC.Ladder(c)[j]) < executed
    ensures 0 < SC.Ladder(c)[j].target <= TargetBy(SC.Ladder(c), executed)
  {
    hide Recovery;
    var ladder := SC.Ladder(c);
    LadderRises(c, closes);
    LadderFactsAt(c, closes, j);
    assert j > 0 ==> ladder[0].signal < ladder[j].signal;
    var k := MaturedIndex(ladder, executed);
    NoneLater(ladder, executed, k, j);
    assert j < k ==> ladder[j].target < ladder[k].target;
  }

  lemma NoneLater(ladder: seq<SourceEvent>, executed: nat, k: nat, j: nat)
    requires RisingSignals(ladder) && k < |ladder| && (k + 1 < |ladder| ==> executed <= Maturity(ladder[k + 1]))
    requires j < |ladder| && Maturity(ladder[j]) < executed
    ensures j <= k
  {
  }

  // What an active state says about the current cycle, and conversely.
  lemma ActiveState(cycles: seq<Cycle>, closes: seq<real>, s: nat, state: RecoveryState)
    requires CoreOfState(state) == CoreAt(cycles, closes, s + 1, s + 1, s + 1)
    ensures state.phase.RecoveryActive? <==> ActiveAt(cycles, closes, s)
    ensures !ActiveAt(cycles, closes, s) ==> state.target == 0
    ensures ActiveAt(cycles, closes, s) ==>
              var c := cycles[Started(cycles, s + 1) - 1];
              && state.cycleId == Some(c.cycleId) && state.target == TargetBy(SC.Ladder(c), s + 1)
              && state.firstEntry == Some(EntrySession(c)) && state.fixedExit == Some(ExitSession(c))
              && (state.recovered <==> Recovery(c, closes) <= s)
  {
    hide CutShort, Recovery;
  }

  ghost predicate ActiveAt(cycles: seq<Cycle>, closes: seq<real>, s: nat) {
    var i := Started(cycles, s + 1);
    i > 0 && !CutShort(cycles[i - 1], closes) && EntrySession(cycles[i - 1]) <= s < ExitSession(cycles[i - 1])
  }

  // From a first entry to its exit the store stays with that cycle, the clock never moves
  // and the target never falls.
  lemma ClockNeverMoves(closes: seq<real>, s: nat, db: Db, s': nat, db': Db)
    requires After(closes, s, db) && After(closes, s', db') && s <= s'
    requires db.state.phase.RecoveryActive? && db.state.fixedExit.Some? && s' < db.state.fixedExit.value
    ensures db'.state.phase.RecoveryActive? && db'.state.cycleId == db.state.cycleId
    ensures db'.state.firstEntry == db.state.firstEntry && db'.state.fixedExit == db.state.fixedExit
    ensures db.state.firstEntry.Some? && db.state.fixedExit.value == db.state.firstEntry.value + FIXED_HOLD
    ensures db.state.firstEntry.Some? && db.state.firstEntry.value <= s
    ensures db.state.target <= db'.state.target
    ensures db.state.recovered ==> db'.state.recovered
  {
    hide After, Recovery, OnTimeline, OkBefore, TableIs, ValidState, CoreAt, CoreOfState, Started, ActiveAt, SC.SourceCycles;
    var cycles := AfterFacts(closes, s, db);
    var _ := AfterFacts(closes, s', db');
    ActiveState(cycles, closes, s, db.state);
    ActiveState(cycles, closes, s', db'.state);
    ActiveStays(cycles, closes, s, s');
  }

  lemma ActiveStays(cycles: seq<Cycle>, closes: seq<real>, s: nat, s': nat)
    requires OnTimeline(cycles, closes) && OkBefore(cycles, closes, s' + 1) && s <= s'
    requires ActiveAt(cycles, closes, s) && s' < ExitSession(cycles[Started(cycles, s + 1) - 1])
    ensures ActiveAt(cycles, closes, s') && Started(cycles, s' + 1) == Started(cycles, s + 1)
    ensures var ladder := SC.Ladder(cycles[Started(cycles, s + 1) - 1]);
            TargetBy(ladder, s + 1) <= TargetBy(ladder, s' + 1)
    ensures EntrySession(cycles[Started(cycles, s + 1) - 1]) <= s
  {
    hide CycleFacts, Recovery, OnTimeline, OkBefore, CutShort;
    var i := Started(cycles, s + 1);
    FactsAt(cycles, closes, i - 1);
    SameCycle(cycles, closes, s, s', i);
    LadderRises(cycles[i - 1], closes);
    FirstOfLadder(cycles[i - 1], closes);
    var j := MaturedIndex(SC.Ladder(cycles[i - 1]), s + 1);
    TargetIsLargest(cycles[i - 1], closes, s' + 1, j);
  }

  // No other cycle starts before the exit.
  lemma SameCycle(cycles: seq<Cycle>, closes: seq<real>, s: nat, s': nat, i: nat)
    requires OnTimeline(cycles, closes) && OkBefore(cycles, closes, s' + 1) && s <= s'
    requires 0 < i == Started(cycles, s + 1) && !CutShort(cycles[i - 1], closes) && s' < ExitSession(cycles[i - 1])
    ensures Started(cycles, s' + 1) == i
  {
    hide CycleFacts, Recovery, OnTimeline, OkBefore, CutShort;
    StartedBounds(cycles, closes, s + 1);
    StartedBounds(cycles, closes, s' + 1);
    var k := Started(cycles, s' + 1);
    assert SC.First(cycles[i - 1]) < s' + 1;
    if i < k {
      EarlierCycleOver(cycles, closes, i - 1, k - 1, s' + 1);
    }
  }

  /* ---- The runtime adapter's gates ---- */

  // The phase checks of CurrentCoreReturnReplayEvidence on a state and its open-event count.
  predicate SnapshotPasses(s: RecoveryState, open: nat) {
    match s.phase
    case Normal =>
      s.target == 0 && open == 0 && s.cycleId.None? && s.firstEntry.None? && s.fixedExit.None? && s.oldAth.None? && !s.recovered
    case WaitD40 =>
      s.target == 0 && open >= 1 && s.cycleId.Some? && s.oldAth.Some? && s.firstEntry.None? && s.fixedExit.None?
    case RecoveryActive =>
      s.target != 0 && s.cycleId.Some? && s.oldAth.Some? && s.firstEntry.Some? && s.fixedExit.Some?
    case OldAthGuard =>
      s.target == 0 && open == 0 && s.cycleId.Some? && s.oldAth.Some?
  }

  datatype Directive = ActiveTarget | NormalDirective

  function DirectiveFor(s: RecoveryState): Directive {
    if s.phase.RecoveryActive? then ActiveTarget else NormalDirective
  }

  // Every open event belongs to the current cycle and matures strictly later.
  ghost predicate OpenAhead(db: Db, s: nat) {
    forall row :: row in db.events && Open(row) ==>
      Some(row.cycleId) == db.state.cycleId && s < row.maturity && row.status.Pending?
  }

  lemma {:induction false} OpenCount(events: seq<EventRow>)
    ensures (forall row :: row in events ==> !Open(row)) <==> |OpenRows(events, None)| == 0
  {
    if |OpenRows(events, None)| == 0 {
      forall row | row in events ensures !Open(row) {
        OpenRowsMembers(events, None, row);
      }
    } else {
      OpenRowsMembers(events, None, OpenRows(events, None)[0]);
    }
  }

  // A waiting cycle has its first event open.
  lemma FirstIsOpen(cycles: seq<Cycle>, closes: seq<real>, db: Db, t: nat)
    requires OnTimeline(cycles, closes) && TableIs(cycles, closes, db.events, t, t, t)
    requires CoreOfState(db.state) == CoreAt(cycles, closes, t, t, t) && db.state.phase.WaitD40?
    ensures exists row :: row in db.events && Open(row)
  {
    hide CycleFacts, Recovery, OnTimeline, LadderFacts, TableIs;
    var i := Started(cycles, t);
    StartedBounds(cycles, closes, t);
    FactsAt(cycles, closes, i - 1);
    FirstOfLadder(cycles[i - 1], closes);
    var k := RowFor(cycles, closes, db.events, t, t, t, i - 1, 0);
    LadderFactsAt(cycles[i - 1], closes, 0);
    assert Maturity(SC.Ladder(cycles[i - 1])[0]) == EntrySession(cycles[i - 1]);
    assert db.events[k] in db.events && Open(db.events[k]);
  }

  // The snapshot after any row of a non-raising replay passes every gate, its open events lie
  // ahead, and it carries a positive weight exactly when it directs ACTIVE_TARGET.
  lemma SnapshotsPass(closes: seq<real>, s: nat, db: Db)
    requires After(closes, s, db)
    ensures SnapshotPasses(db.state, |PendingEvents(db, None)|)
    ensures OpenAhead(db, s)
    ensures db.state.target > 0 <==> DirectiveFor(db.state) == ActiveTarget
  {
    hide After, CycleFacts, Recovery, OnTimeline, OkBefore, TableIs, CutShort, RisingMaturity, UniqueKeys, CoreAt, Open;
    var cycles := AfterFacts(closes, s, db);
    TableKeys(cycles, closes, db.events, s + 1, s + 1, s + 1);
    PendingInOrder(db, None);
    OpenCount(db.events);
    OpenLiesAhead(cycles, closes, db, s);
    if db.state.phase.WaitD40? {
      FirstIsOpen(cycles, closes, db, s + 1);
    } else if !db.state.phase.RecoveryActive? {
      NoneOpenAfter(cycles, closes, db, s);
    }
  }

  lemma NoneOpenAfter(cycles: seq<Cycle>, closes: seq<real>, db: Db, s: nat)
    requires OnTimeline(cycles, closes) && OkBefore(cycles, closes, s + 1)
    requires TableIs(cycles, closes, db.events, s + 1, s + 1, s + 1)
    requires CoreOfState(db.state) == CoreAt(cycles, closes, s + 1, s + 1, s + 1)
    requires db.state.phase.Normal? || db.state.phase.OldAthGuard?
    ensures forall row :: row in db.events ==> !Open(row)
  {
    hide CycleFacts, Recovery, OnTimeline, OkBefore, TableIs;
    NoOpenRows(cycles, closes, db, s + 1, s + 1, s + 1);
  }

  lemma OpenLiesAhead(cycles: seq<Cycle>, closes: seq<real>, db: Db, s: nat)
    requires OnTimeline(cycles, closes) && OkBefore(cycles, closes, s + 1)
    requires TableIs(cycles, closes, db.events, s + 1, s + 1, s + 1)
    requires CoreOfState(db.state) == CoreAt(cycles, closes, s + 1, s + 1, s + 1)
    ensures OpenAhead(db, s)
  {
    hide CycleFacts, Recovery, OnTimeline, OkBefore, TableIs, CutShort;
    forall row | row in db.events && Open(row)
      ensures Some(row.cycleId) == db.state.cycleId && s < row.maturity && row.status.Pending?
    {
      var k :| 0 <= k < |db.events| && db.events[k] == row;
      OpenRowIsCurrent(cycles, closes, db.events, s + 1, s + 1, s + 1, k);
      FactsAt(cycles, closes, Started(cycles, s + 1) - 1);
    }
  }
}
