// process_execution_session keeps the closed form: from every store in closed form
// before session t it either reaches the closed form after the executions of t, or
// raises because the exit of a first entry lies beyond the calendar.
module ProcessRefines {
  import opened Common
  import opened RecoveryTables
  import opened Dispatcher
  import opened StoreLemmas
  import opened StoreSteps
  import opened FinalSchedule
  import opened Timeline
  import opened ClosedForm
  import opened TableFacts
  import Robust
  import SC = SourceCompiler

  ghost predicate NoTradeAt(cycles: seq<Cycle>, closes: seq<real>, t: nat) {
    forall x :: Scheduled(cycles, Recoveries(cycles, closes), x) ==> x.session != t
  }

  // The facts about a store before the executions of session t.
  ghost predicate Before(cycles: seq<Cycle>, closes: seq<real>, db: Db, t: nat) {
    && t < |closes| && OnTimeline(cycles, closes) && OkBefore(cycles, closes, t)
    && StoreIs(cycles, closes, db, t, t, t, 4 * t)
  }

  lemma BeforeFacts(cycles: seq<Cycle>, closes: seq<real>, db: Db, t: nat)
    requires Before(cycles, closes, db, t)
    ensures OnTimeline(cycles, closes) && OkBefore(cycles, closes, t) && t < |closes|
    ensures ValidState(db.state) && db.state.revision >= 1 && db.state.reserve == 0.0
    ensures CoreOfState(db.state) == CoreAt(cycles, closes, t, t, t)
    ensures TableIs(cycles, closes, db.events, t, t, t)
    ensures UniqueKeys(db.events) && RisingMaturity(db.events)
    ensures TradesAre(cycles, closes, TradesIn(db.transitions), t)
    ensures ReturnsAre(cycles, closes, ReturnsIn(db.transitions), t, t)
    ensures KeysBelow(db.transitions, 4 * t)
  {
    hide OnTimeline, OkBefore, TableIs, CoreAt, KeysBelow, TradesAre, ReturnsAre, ValidState, Scheduled, UniqueKeys, RisingMaturity;
    TableKeys(cycles, closes, db.events, t, t, t);
    StateIsValid(cycles, closes, db.state, t, t, t);
  }

  // The current cycle with its dates, for reasoning about one session.
  lemma Current(cycles: seq<Cycle>, closes: seq<real>, t: nat) returns (i: nat)
    requires OnTimeline(cycles, closes)
    ensures i == Started(cycles, t) <= |cycles|
    ensures i > 0 ==> CycleFacts(cycles[i - 1], closes, i) && cycles[i - 1].cycleId == i
                      && SC.First(cycles[i - 1]) < t
                      && CoreAt(cycles, closes, t, t, t) == CycleCore(cycles[i - 1], closes, t, t)
                      && CoreAt(cycles, closes, t, t + 1, t) == CycleCore(cycles[i - 1], closes, t + 1, t)
    ensures i == 0 ==> CoreAt(cycles, closes, t, t, t) == IDLE == CoreAt(cycles, closes, t, t + 1, t)
  {
    hide CycleFacts, Recovery;
    i := Started(cycles, t);
    StartedBounds(cycles, closes, t);
    if i > 0 {
      FactsAt(cycles, closes, i - 1);
    }
  }

  /* ---- Sessions without a trade ---- */

  // Nothing of the current cycle happens on such a session.
  lemma QuietCycle(cycles: seq<Cycle>, closes: seq<real>, t: nat, k: nat)
    requires NoTradeAt(cycles, closes, t) && k < |cycles| && !CutShort(cycles[k], closes)
    requires CycleFacts(cycles[k], closes, k + 1) && cycles[k].cycleId == k + 1
    ensures ExitSession(cycles[k]) != t && EntrySession(cycles[k]) != t
    ensures forall j :: 0 <= j < |SC.Ladder(cycles[k])| && Maturity(SC.Ladder(cycles[k])[j]) == t ==> t >= ExitSession(cycles[k])
  {
    hide Scheduled, Recovery, CycleFacts;
    var c := cycles[k];
    var x := Trade(c.cycleId, ExitSession(c), 0);
    CurrentTradeScheduled(cycles, closes, k, x);
    forall j | 0 <= j < |SC.Ladder(c)| && Maturity(SC.Ladder(c)[j]) == t ensures t >= ExitSession(c) {
      if t < ExitSession(c) {
        CurrentTradeScheduled(cycles, closes, k, Trade(c.cycleId, t, SC.Ladder(c)[j].target));
      }
    }
    FirstOfLadder(c, closes);
    assert Maturity(SC.Ladder(c)[0]) == EntrySession(c);
  }

  lemma QuietCore(cycles: seq<Cycle>, closes: seq<real>, t: nat)
    requires OnTimeline(cycles, closes) && NoTradeAt(cycles, closes, t)
    ensures CoreAt(cycles, closes, t, t + 1, t) == CoreAt(cycles, closes, t, t, t)
  {
    hide CycleFacts, Recovery, NoTradeAt, OnTimeline, CutShort;
    var i := Current(cycles, closes, t);
    if i > 0 && !CutShort(cycles[i - 1], closes) {
      var c := cycles[i - 1];
      QuietCycle(cycles, closes, t, i - 1);
      if t < ExitSession(c) {
        TargetStays(SC.Ladder(c), t);
      }
    }
  }

  lemma QuietKeeps(cycles: seq<Cycle>, closes: seq<real>, db: Db, t: nat)
    requires Before(cycles, closes, db, t) && NoTradeAt(cycles, closes, t)
    ensures StoreIs(cycles, closes, db, t, t + 1, t, 4 * t + 2)
  {
    hide OnTimeline, OkBefore, TableIs, CoreAt, NoTradeAt, TradesAre, ReturnsAre, CycleFacts, Recovery, UniqueKeys, RisingMaturity;
    BeforeFacts(cycles, closes, db, t);
    QuietCore(cycles, closes, t);
    QuietTable(cycles, closes, db.events, t);
    QuietTrades(cycles, closes, TradesIn(db.transitions), t);
    QuietReturns(cycles, closes, ReturnsIn(db.transitions), t);
  }

  lemma QuietTable(cycles: seq<Cycle>, closes: seq<real>, rows: seq<EventRow>, t: nat)
    requires OnTimeline(cycles, closes) && NoTradeAt(cycles, closes, t) && TableIs(cycles, closes, rows, t, t, t)
    ensures TableIs(cycles, closes, rows, t, t + 1, t)
  {
    hide OnTimeline, TableIs, NoTradeAt, CycleFacts, Recovery, LadderFacts, LadderEvents;
    forall k | 0 <= k < |rows| && k < |LadderEvents(cycles)| && 1 <= LadderEvents(cycles)[k].cycleId <= |cycles|
      ensures var e := LadderEvents(cycles)[k];
              rows[k] == rows[k].(status := StatusOf(cycles[e.cycleId - 1], closes, e, t + 1, t))
    {
      var i, j := TableRow(cycles, closes, rows, t, t, t, k);
      FactsAt(cycles, closes, i);
      var e := SC.Ladder(cycles[i])[j];
      assert e.cycleId == i + 1 by { LadderFactsAt(cycles[i], closes, j); }
      if !CutShort(cycles[i], closes) {
        QuietCycle(cycles, closes, t, i);
        assert Maturity(e) == t ==> t >= ExitSession(cycles[i]);
      }
      assert StatusOf(cycles[i], closes, e, t, t) == StatusOf(cycles[i], closes, e, t + 1, t);
    }
    TableStep(cycles, closes, rows, rows, t, t, t, t + 1, t);
  }

  lemma QuietTrades(cycles: seq<Cycle>, closes: seq<real>, trades: seq<Trade>, t: nat)
    requires NoTradeAt(cycles, closes, t) && TradesAre(cycles, closes, trades, t)
    ensures TradesAre(cycles, closes, trades, t + 1)
  {
    hide Scheduled;
  }

  lemma QuietReturns(cycles: seq<Cycle>, closes: seq<real>, made: seq<Return>, t: nat)
    requires OnTimeline(cycles, closes) && NoTradeAt(cycles, closes, t) && ReturnsAre(cycles, closes, made, t, t)
    ensures ReturnsAre(cycles, closes, made, t + 1, t)
  {
    hide NoTradeAt, CycleFacts, OnTimeline, Recovery;
    forall x ensures Returned(cycles, closes, x, t + 1, t) <==> Returned(cycles, closes, x, t, t) {
      if 1 <= x.cycleId <= |cycles| && !CutShort(cycles[x.cycleId - 1], closes) {
        FactsAt(cycles, closes, x.cycleId - 1);
        QuietCycle(cycles, closes, t, x.cycleId - 1);
      }
    }
  }

  lemma QuietProcess(cycles: seq<Cycle>, closes: seq<real>, db: Db, t: nat)
    requires Before(cycles, closes, db, t) && NoTradeAt(cycles, closes, t)
    ensures Process(db, t, |closes|).outcome.Ok? && Process(db, t, |closes|).commits == []
  {
    hide OnTimeline, OkBefore, TableIs, CoreAt, NoTradeAt, TradesAre, ReturnsAre, CycleFacts, Recovery,
      UniqueKeys, RisingMaturity, ValidState, KeysBelow, ProcessDue, ProcessExit;
    BeforeFacts(cycles, closes, db, t);
    var i := Current(cycles, closes, t);
    if db.state.phase.Normal? {
      IdleIsQuiet(cycles, closes, db, t);
    } else if !db.state.phase.OldAthGuard? {
      if !CutShort(cycles[i - 1], closes) {
        QuietCycle(cycles, closes, t, i - 1);
        ExitOnCalendar(cycles, closes, i - 1, t);
      }
      NoneDue(cycles, closes, db, t);
      NothingDue(db, t, |closes|);
    }
  }

  lemma IdleIsQuiet(cycles: seq<Cycle>, closes: seq<real>, db: Db, t: nat)
    requires Before(cycles, closes, db, t) && db.state.phase.Normal?
    ensures PendingEvents(db, None) == []
  {
    hide OnTimeline, OkBefore, TableIs, CycleFacts, Recovery, TradesAre, ReturnsAre;
    BeforeFacts(cycles, closes, db, t);
    var i := Current(cycles, closes, t);
    NoOpenRows(cycles, closes, db, t, t, t);
    NothingToCancel(db, None);
  }

  // An entry already made had its exit on the calendar.
  lemma ExitOnCalendar(cycles: seq<Cycle>, closes: seq<real>, i: nat, t: nat)
    requires OkBefore(cycles, closes, t) && i < |cycles| && !CutShort(cycles[i], closes)
    ensures EntrySession(cycles[i]) < t ==> ExitSession(cycles[i]) < |closes|
  {
    hide Recovery, SignalOk, CutShort;
    if EntrySession(cycles[i]) < t {
      assert EntryOk(cycles, closes, EntrySession(cycles[i]));
    }
  }

  lemma NoneDue(cycles: seq<Cycle>, closes: seq<real>, db: Db, t: nat)
    requires Before(cycles, closes, db, t) && NoTradeAt(cycles, closes, t) && db.state.cycleId.Some?
    ensures OpenFrom(db, CycleOf(db.state), t + 1, |closes|)
  {
    hide OnTimeline, OkBefore, TableIs, CycleFacts, Recovery, LadderFacts, NoTradeAt, TradesAre, ReturnsAre;
    BeforeFacts(cycles, closes, db, t);
    forall row | row in db.events && Open(row) && row.cycleId == CycleOf(db.state) ensures t + 1 <= row.maturity < |closes| {
      var k :| 0 <= k < |db.events| && db.events[k] == row;
      OpenRowIsCurrent(cycles, closes, db.events, t, t, t, k);
      var i, j := TableRow(cycles, closes, db.events, t, t, t, k);
      FactsAt(cycles, closes, i);
      if !CutShort(cycles[i], closes) {
        QuietCycle(cycles, closes, t, i);
        assert Maturity(SC.Ladder(cycles[i])[j]) == row.maturity;
      }
    }
  }

  /* ---- Sessions with a trade ---- */

  // The cycle that trades on this session is the current one; all others are quiet.
  ghost predicate Trading(cycles: seq<Cycle>, closes: seq<real>, t: nat, i: nat) {
    0 < i == Started(cycles, t) <= |cycles| && !CutShort(cycles[i - 1], closes)
  }

  lemma OthersQuiet(cycles: seq<Cycle>, closes: seq<real>, t: nat, k: nat)
    requires OnTimeline(cycles, closes) && OkBefore(cycles, closes, t)
    requires k < |cycles| && k + 1 != Started(cycles, t) && !CutShort(cycles[k], closes)
    ensures ExitSession(cycles[k]) != t && EntrySession(cycles[k]) != t
    ensures forall j :: 0 <= j < |SC.Ladder(cycles[k])| && Maturity(SC.Ladder(cycles[k])[j]) == t ==> t >= ExitSession(cycles[k])
  {
    hide Scheduled, Recovery, CycleFacts, OnTimeline, OkBefore;
    var c := cycles[k];
    FactsAt(cycles, closes, k);
    if ExitSession(c) == t {
      TradeAlone(cycles, closes, t, k, Trade(c.cycleId, ExitSession(c), 0));
    }
    forall j | 0 <= j < |SC.Ladder(c)| && Maturity(SC.Ladder(c)[j]) == t ensures t >= ExitSession(c) {
      if t < ExitSession(c) {
        TradeAlone(cycles, closes, t, k, Trade(c.cycleId, t, SC.Ladder(c)[j].target));
      }
    }
    FirstOfLadder(c, closes);
    assert Maturity(SC.Ladder(c)[0]) == EntrySession(c);
  }

  lemma TradeAlone(cycles: seq<Cycle>, closes: seq<real>, t: nat, k: nat, x: Trade)
    requires OnTimeline(cycles, closes) && OkBefore(cycles, closes, t)
    requires k < |cycles| && !CutShort(cycles[k], closes) && CycleTrade(cycles[k], x) && x.session == t
    ensures k + 1 == Started(cycles, t)
  {
    hide Recovery, CycleFacts, OkBefore, CycleTrade;
    CurrentTradeScheduled(cycles, closes, k, x);
    TradeIsCurrent(cycles, closes, t, x);
    FactsAt(cycles, closes, k);
    FactsAt(cycles, closes, Started(cycles, t) - 1);
    assert x.cycleId == k + 1 && x.cycleId == Started(cycles, t) by {
      TradeCycle(cycles[k], x);
      TradeCycle(cycles[Started(cycles, t) - 1], x);
    }
  }

  lemma TradeCycle(c: Cycle, x: Trade)
    requires CycleTrade(c, x)
    ensures x.cycleId == c.cycleId
  {
  }

  // The table when the rows of this session are applied; at the exit none is.
  lemma TradeTable(cycles: seq<Cycle>, closes: seq<real>, rows: seq<EventRow>, next: seq<EventRow>, t: nat, i: nat)
    requires OnTimeline(cycles, closes) && OkBefore(cycles, closes, t) && TableIs(cycles, closes, rows, t, t, t)
    requires Trading(cycles, closes, t, i) && |next| == |rows|
    requires forall k :: 0 <= k < |rows| ==>
               next[k] == if rows[k].cycleId == i && rows[k].maturity == t && t < ExitSession(cycles[i - 1])
                          then rows[k].(status := Applied) else rows[k]
    ensures TableIs(cycles, closes, next, t, t + 1, t)
  {
    hide OnTimeline, OkBefore, TableIs, CycleFacts, Recovery, LadderFacts, LadderEvents;
    forall k | 0 <= k < |rows| && k < |LadderEvents(cycles)| && 1 <= LadderEvents(cycles)[k].cycleId <= |cycles|
      ensures var e := LadderEvents(cycles)[k];
              next[k] == rows[k].(status := StatusOf(cycles[e.cycleId - 1], closes, e, t + 1, t))
    {
      var m, j := TableRow(cycles, closes, rows, t, t, t, k);
      FactsAt(cycles, closes, m);
      var e := SC.Ladder(cycles[m])[j];
      assert e.cycleId == m + 1 by { LadderFactsAt(cycles[m], closes, j); }
      if m + 1 != i && !CutShort(cycles[m], closes) {
        OthersQuiet(cycles, closes, t, m);
        assert Maturity(e) == t ==> t >= ExitSession(cycles[m]);
      }
    }
    TableStep(cycles, closes, rows, next, t, t, t, t + 1, t);
  }

  // The journal gains the trade x, the only one scheduled for this session.
  lemma TradeMade(cycles: seq<Cycle>, closes: seq<real>, trades: seq<Trade>, t: nat, x: Trade)
    requires TradesAre(cycles, closes, trades, t)
    requires Scheduled(cycles, Recoveries(cycles, closes), x) && x.session == t
    requires forall y :: Scheduled(cycles, Recoveries(cycles, closes), y) && y.session == t ==> y == x
    ensures TradesAre(cycles, closes, trades + [x], t + 1)
  {
    hide Scheduled;
  }

  lemma OnlyTrade(cycles: seq<Cycle>, closes: seq<real>, t: nat, i: nat, x: Trade)
    requires OnTimeline(cycles, closes) && OkBefore(cycles, closes, t) && Trading(cycles, closes, t, i)
    requires CycleTrade(cycles[i - 1], x) && x.session == t
    ensures Scheduled(cycles, Recoveries(cycles, closes), x)
    ensures forall y :: Scheduled(cycles, Recoveries(cycles, closes), y) && y.session == t ==> y == x
  {
    hide Scheduled, OnTimeline, OkBefore, CycleFacts, Recovery, CycleTrade;
    CurrentTradeScheduled(cycles, closes, i - 1, x);
    forall y | Scheduled(cycles, Recoveries(cycles, closes), y) && y.session == t ensures y == x {
      TradeIsCurrent(cycles, closes, t, y);
      FactsAt(cycles, closes, i - 1);
      OneTradeASession(cycles[i - 1], closes, x, y);
    }
  }

  lemma OneTradeASession(c: Cycle, closes: seq<real>, x: Trade, y: Trade)
    requires CycleFacts(c, closes, c.cycleId) && CycleTrade(c, x) && CycleTrade(c, y) && x.session == y.session
    ensures x == y
  {
    var ladder := SC.Ladder(c);
    if x.session != ExitSession(c) {
      var j :| 0 <= j < |ladder| && Maturity(ladder[j]) == x.session && ladder[j].target == x.target;
      var k :| 0 <= k < |ladder| && Maturity(ladder[k]) == y.session && ladder[k].target == y.target;
      assert j < k ==> ladder[j].signal < ladder[k].signal;
      assert k < j ==> ladder[k].signal < ladder[j].signal;
    }
  }

  // Row k, ladder event j of the current cycle, is due on session t.
  ghost predicate Due(cycles: seq<Cycle>, closes: seq<real>, db: Db, t: nat, i: nat, j: nat, k: nat) {
    && Before(cycles, closes, db, t) && Trading(cycles, closes, t, i)
    && j < |SC.Ladder(cycles[i - 1])| && k < |db.events|
    && Maturity(SC.Ladder(cycles[i - 1])[j]) == t < ExitSession(cycles[i - 1])
    && db.events[k] == RowOf(SC.Ladder(cycles[i - 1])[j])
  }

  lemma DueFacts(cycles: seq<Cycle>, closes: seq<real>, db: Db, t: nat, i: nat, j: nat, k: nat)
    requires Due(cycles, closes, db, t, i, j, k)
    ensures var row := db.events[k];
            && row.maturity == t && row.cycleId == i && row.status.Pending? && row.key.signal + 1 + ENTRY_DELAY == t
            && Robust.FrozenTarget(row.target) && row.target == SC.Ladder(cycles[i - 1])[j].target > 0
    ensures CycleFacts(cycles[i - 1], closes, i) && cycles[i - 1].cycleId == i
    ensures CycleTrade(cycles[i - 1], Trade(i, t, db.events[k].target))
  {
    hide Before, CycleFacts, Recovery;
    assert OnTimeline(cycles, closes) by { BeforeFacts(cycles, closes, db, t); }
    FactsAt(cycles, closes, i - 1);
    LadderFactsAt(cycles[i - 1], closes, j);
    assert LadderFacts(SC.Ladder(cycles[i - 1])[j], cycles[i - 1], closes);
  }

  // Once the due row is applied, the closed form has moved past the executions of t.
  lemma AppliedKeeps(
    cycles: seq<Cycle>, closes: seq<real>, db: Db, t: nat, i: nat, j: nat, k: nat, reason: Reason, updates: Updates)
    requires Due(cycles, closes, db, t, i, j, k)
    requires updates.target == Set(db.events[k].target)
    requires CoreOfState(Applying(db, db.events[k], reason, updates).state) == CoreAt(cycles, closes, t, t + 1, t)
    ensures StoreIs(cycles, closes, Applying(db, db.events[k], reason, updates), t, t + 1, t, 4 * t + 2)
  {
    hide Before, OnTimeline, OkBefore, TableIs, CoreAt, TradesAre, ReturnsAre, CycleFacts, Recovery, Scheduled, CutShort, CycleTrade;
    BeforeFacts(cycles, closes, db, t);
    DueFacts(cycles, closes, db, t, i, j, k);
    var row := db.events[k];
    var next := Applying(db, row, reason, updates);
    OnlyThisRow(db.events, k);
    TradeTable(cycles, closes, db.events, next.events, t, i);
    var x := Trade(i, t, row.target);
    OnlyTrade(cycles, closes, t, i, x);
    TradeMade(cycles, closes, TradesIn(db.transitions), t, x);
    assert DropLast(next.transitions) == db.transitions;
    assert TradesIn(next.transitions) == TradesIn(db.transitions) + [x];
    assert ReturnsIn(next.transitions) == ReturnsIn(db.transitions);
    NoReturnBeforeExit(cycles, closes, ReturnsIn(db.transitions), t, i);
  }

  lemma NoReturnBeforeExit(cycles: seq<Cycle>, closes: seq<real>, made: seq<Return>, t: nat, i: nat)
    requires OnTimeline(cycles, closes) && OkBefore(cycles, closes, t) && Trading(cycles, closes, t, i)
    requires t < ExitSession(cycles[i - 1]) && ReturnsAre(cycles, closes, made, t, t)
    ensures ReturnsAre(cycles, closes, made, t + 1, t)
  {
    hide OnTimeline, OkBefore, CycleFacts, Recovery;
    forall x ensures Returned(cycles, closes, x, t + 1, t) <==> Returned(cycles, closes, x, t, t) {
      if 1 <= x.cycleId <= |cycles| && x.cycleId != i && !CutShort(cycles[x.cycleId - 1], closes) {
        OthersQuiet(cycles, closes, t, x.cycleId - 1);
      }
    }
  }

  lemma DueIsApplicable(cycles: seq<Cycle>, closes: seq<real>, db: Db, t: nat, i: nat, j: nat, k: nat)
    requires Due(cycles, closes, db, t, i, j, k)
    requires db.state.cycleId == Some(i)
    ensures DueAt(db, k) && OpenFrom(db, i, t, |closes|)
    ensures OpenBefore(db, i, ExitSession(cycles[i - 1]), |closes|)
  {
    hide Before, OnTimeline, OkBefore, TableIs, CoreAt, TradesAre, ReturnsAre, CycleFacts, Recovery, CutShort;
    BeforeFacts(cycles, closes, db, t);
    DueFacts(cycles, closes, db, t, i, j, k);
    FreshKey(db.transitions, 4 * t, ApplyKey(db.events[k].key));
    forall row | row in db.events && Open(row) && row.cycleId == i
      ensures t <= row.maturity < |closes| && row.maturity < ExitSession(cycles[i - 1])
    {
      var m :| 0 <= m < |db.events| && db.events[m] == row;
      OpenRowIsCurrent(cycles, closes, db.events, t, t, t, m);
    }
  }

  lemma EntryIffCalendar(cycles: seq<Cycle>, closes: seq<real>, t: nat, i: nat)
    requires OnTimeline(cycles, closes) && OkBefore(cycles, closes, t) && Trading(cycles, closes, t, i)
    ensures EntryOk(cycles, closes, t) <==> (EntrySession(cycles[i - 1]) == t ==> ExitSession(cycles[i - 1]) < |closes|)
  {
    hide OnTimeline, OkBefore, CycleFacts, Recovery, CutShort;
    forall k | 0 <= k < |cycles| && k != i - 1 && !CutShort(cycles[k], closes) ensures EntrySession(cycles[k]) != t {
      OthersQuiet(cycles, closes, t, k);
    }
  }

  lemma EntryProcess(cycles: seq<Cycle>, closes: seq<real>, db: Db, t: nat, i: nat, k: nat)
    requires Due(cycles, closes, db, t, i, 0, k) && t == EntrySession(cycles[i - 1])
    ensures Process(db, t, |closes|).outcome.Ok? <==> ExitSession(cycles[i - 1]) < |closes|
    ensures ExitSession(cycles[i - 1]) < |closes| ==>
              StoreIs(cycles, closes, End(db, Process(db, t, |closes|).commits), t, t + 1, t, 4 * t + 2)
  {
    hide Before, OnTimeline, OkBefore, TableIs, TradesAre, ReturnsAre, CycleFacts, Recovery, CutShort, StoreIs, ProcessDue,
      ApplyDue, DueAt, UniqueKeys, RisingMaturity, ValidState, KeysBelow, OpenFrom, OpenBefore, Started;
    BeforeFacts(cycles, closes, db, t);
    DueFacts(cycles, closes, db, t, i, 0, k);
    var m := Current(cycles, closes, t);
    DueIsApplicable(cycles, closes, db, t, i, 0, k);
    var row := db.events[k];
    if ExitSession(cycles[i - 1]) < |closes| {
      EntryDoes(db, k, t, |closes|);
      var next := Applying(db, row, ApplyFirstEntry, EntryUpdates(row.target, t));
      EntryTarget(cycles[i - 1], closes, t);
      AppliedKeeps(cycles, closes, db, t, i, 0, k, ApplyFirstEntry, EntryUpdates(row.target, t));
      AppliedValid(cycles, closes, next, t);
      OneDue(db, k, t, |closes|, next);
    } else {
      EntryFails(db, k, t, |closes|);
      OneDueFails(db, k, t, |closes|);
    }
  }

  lemma EntryTarget(c: Cycle, closes: seq<real>, t: nat)
    requires CycleFacts(c, closes, c.cycleId) && t == EntrySession(c) && !CutShort(c, closes)
    ensures Recovery(c, closes) >= t
    ensures |SC.Ladder(c)| > 0 && TargetBy(SC.Ladder(c), t + 1) == SC.Ladder(c)[0].target
  {
    LadderRises(c, closes);
    FirstOfLadder(c, closes);
    assert |SC.Ladder(c)| > 1 ==> SC.Ladder(c)[0].signal < SC.Ladder(c)[1].signal;
    TargetByAt(SC.Ladder(c), 0, t + 1);
  }

  lemma AppliedValid(cycles: seq<Cycle>, closes: seq<real>, db: Db, t: nat)
    requires OnTimeline(cycles, closes) && StoreIs(cycles, closes, db, t, t + 1, t, 4 * t + 2)
    ensures ValidState(db.state)
  {
    hide OnTimeline, TableIs, TradesAre, ReturnsAre, CoreAt;
    StateIsValid(cycles, closes, db.state, t, t + 1, t);
  }

  lemma ScaleProcess(cycles: seq<Cycle>, closes: seq<real>, db: Db, t: nat, i: nat, j: nat, k: nat)
    requires Due(cycles, closes, db, t, i, j, k) && j > 0
    ensures Process(db, t, |closes|).outcome.Ok? && EntrySession(cycles[i - 1]) < t
    ensures StoreIs(cycles, closes, End(db, Process(db, t, |closes|).commits), t, t + 1, t, 4 * t + 2)
  {
    hide Before, OnTimeline, OkBefore, TableIs, TradesAre, ReturnsAre, CycleFacts, Recovery, CutShort, StoreIs, ProcessDue,
      ApplyDue, DueAt, UniqueKeys, RisingMaturity, ValidState, KeysBelow, OpenFrom, OpenBefore, Started;
    BeforeFacts(cycles, closes, db, t);
    DueFacts(cycles, closes, db, t, i, j, k);
    var m := Current(cycles, closes, t);
    TargetRises(cycles[i - 1], closes, j, t);
    ExitOnCalendar(cycles, closes, i - 1, t);
    DueIsApplicable(cycles, closes, db, t, i, j, k);
    var row := db.events[k];
    ScaleDoes(db, k, t, |closes|);
    var next := Applying(db, row, ApplyScaleUp, NO_UPDATES.(target := Set(row.target)));
    AppliedKeeps(cycles, closes, db, t, i, j, k, ApplyScaleUp, NO_UPDATES.(target := Set(row.target)));
    AppliedValid(cycles, closes, next, t);
    OneDue(db, k, t, |closes|, next);
  }

  /* ---- The exit ---- */

  ghost predicate Exiting(cycles: seq<Cycle>, closes: seq<real>, db: Db, t: nat, i: nat) {
    Before(cycles, closes, db, t) && Trading(cycles, closes, t, i) && t == ExitSession(cycles[i - 1])
  }

  lemma ExitTrades(cycles: seq<Cycle>, closes: seq<real>, trades: seq<Trade>, t: nat, i: nat)
    requires OnTimeline(cycles, closes) && OkBefore(cycles, closes, t) && Trading(cycles, closes, t, i)
    requires t == ExitSession(cycles[i - 1]) && TradesAre(cycles, closes, trades, t)
    ensures TradesAre(cycles, closes, trades + [Trade(i, t, 0)], t + 1)
  {
    hide OnTimeline, OkBefore, CycleFacts, Recovery, TradesAre, Scheduled;
    FactsAt(cycles, closes, i - 1);
    OnlyTrade(cycles, closes, t, i, Trade(i, t, 0));
    TradeMade(cycles, closes, trades, t, Trade(i, t, 0));
  }

  // The exit returns to NORMAL at once iff the old ATH has been seen.
  lemma ExitReturns(cycles: seq<Cycle>, closes: seq<real>, made: seq<Return>, t: nat, i: nat)
    requires OnTimeline(cycles, closes) && OkBefore(cycles, closes, t) && Trading(cycles, closes, t, i)
    requires t == ExitSession(cycles[i - 1]) && ReturnsAre(cycles, closes, made, t, t)
    ensures ReturnsAre(cycles, closes,
                       if Recovery(cycles[i - 1], closes) < t then made + [Return(i, t)] else made, t + 1, t)
  {
    hide OnTimeline, OkBefore, CycleFacts, Recovery, ReturnsAre;
    var c, u := cycles[i - 1], t + 1;
    forall x ensures Returned(cycles, closes, x, u, t) <==>
                     Returned(cycles, closes, x, t, t) || (Recovery(c, closes) < t && x == Return(i, t))
    {
      if 1 <= x.cycleId <= |cycles| && x.cycleId != i && !CutShort(cycles[x.cycleId - 1], closes) {
        OthersQuiet(cycles, closes, t, x.cycleId - 1);
      }
    }
    ReturnedBefore(cycles, closes, made, t, i);
    AppendReturn(cycles, closes, made, t, u, i);
  }

  lemma ReturnedBefore(cycles: seq<Cycle>, closes: seq<real>, made: seq<Return>, t: nat, i: nat)
    requires OnTimeline(cycles, closes) && Trading(cycles, closes, t, i)
    requires t == ExitSession(cycles[i - 1]) && ReturnsAre(cycles, closes, made, t, t)
    ensures forall k :: 0 <= k < |made| ==> made[k].cycleId < i
  {
    hide OnTimeline, CycleFacts, Recovery;
    StartedBounds(cycles, closes, t);
    forall k | 0 <= k < |made| ensures made[k].cycleId < i {
      assert Returned(cycles, closes, made[k], t, t);
      FirstBeforeRecovery(cycles, closes, made[k].cycleId - 1);
    }
  }

  lemma AppendReturn(cycles: seq<Cycle>, closes: seq<real>, made: seq<Return>, t: nat, u: nat, i: nat)
    requires u == t + 1 && 0 < i <= |cycles| && ReturnsAre(cycles, closes, made, t, t)
    requires forall k :: 0 <= k < |made| ==> made[k].cycleId < i
    requires forall x :: Returned(cycles, closes, x, u, t) <==>
               Returned(cycles, closes, x, t, t) || (Recovery(cycles[i - 1], closes) < t && x == Return(i, t))
    ensures ReturnsAre(cycles, closes,
                       if Recovery(cycles[i - 1], closes) < t then made + [Return(i, t)] else made, u, t)
  {
    hide Returned, Recovery;
    var next := if Recovery(cycles[i - 1], closes) < t then made + [Return(i, t)] else made;
    forall x ensures x in next <==> Returned(cycles, closes, x, u, t) {
      assert x in made <==> Returned(cycles, closes, x, t, t);
    }
  }

  lemma ExitProcess(cycles: seq<Cycle>, closes: seq<real>, db: Db, t: nat, i: nat)
    requires Exiting(cycles, closes, db, t, i)
    ensures Process(db, t, |closes|).outcome.Ok?
    ensures StoreIs(cycles, closes, End(db, Process(db, t, |closes|).commits), t, t + 1, t, 4 * t + 2)
  {
    hide Before, OnTimeline, OkBefore, TableIs, TradesAre, ReturnsAre, CycleFacts, Recovery, CutShort,
      UniqueKeys, RisingMaturity, ValidState, KeysBelow, ProcessExit, Started, ProcessDue;
    BeforeFacts(cycles, closes, db, t);
    var m := Current(cycles, closes, t);
    NoOpenRows(cycles, closes, db, t, t, t);
    NothingToCancel(db, db.state.cycleId);
    FreshKey(db.transitions, 4 * t, FixedExitKey(i, t));
    FreshKey(db.transitions, 4 * t, RearmAfterExitKey(i, t));
    ExitDoes(db, t, |closes|);
    TradeTable(cycles, closes, db.events, db.events, t, i);
    ExitTrades(cycles, closes, TradesIn(db.transitions), t, i);
    ExitReturns(cycles, closes, ReturnsIn(db.transitions), t, i);
    var exited := Moved(db, FixedExitKey(i, t), OldAthGuard, H378FixedExit, EXIT_UPDATES, NoPayload);
    JournalExit(db, exited, i, t);
    ExitKeys(db.transitions, exited.transitions, t, i);
    if db.state.recovered {
      var back := Moved(exited, RearmAfterExitKey(i, t), Normal, RearmAfterFixedExit, CLEAR_CYCLE, NoPayload);
      JournalReturn(exited, back, i, t);
      ExitKeys(exited.transitions, back.transitions, t, i);
    }
  }

  lemma JournalExit(db: Db, exited: Db, i: nat, t: nat)
    requires exited == Moved(db, FixedExitKey(i, t), OldAthGuard, H378FixedExit, EXIT_UPDATES, NoPayload)
    ensures TradesIn(exited.transitions) == TradesIn(db.transitions) + [Trade(i, t, 0)]
    ensures ReturnsIn(exited.transitions) == ReturnsIn(db.transitions)
  {
    assert DropLast(exited.transitions) == db.transitions;
  }

  lemma JournalReturn(exited: Db, back: Db, i: nat, t: nat)
    requires back == Moved(exited, RearmAfterExitKey(i, t), Normal, RearmAfterFixedExit, CLEAR_CYCLE, NoPayload)
    ensures TradesIn(back.transitions) == TradesIn(exited.transitions)
    ensures ReturnsIn(back.transitions) == ReturnsIn(exited.transitions) + [Return(i, t)]
  {
    assert DropLast(back.transitions) == exited.transitions;
  }

  lemma ExitKeys(rows: seq<TransitionRow>, next: seq<TransitionRow>, t: nat, i: nat)
    requires KeysBelow(rows, 4 * t + 2) || KeysBelow(rows, 4 * t)
    requires |next| == |rows| + 1 && next[..|rows|] == rows
    requires Last(next).key in {FixedExitKey(i, t), RearmAfterExitKey(i, t)}
    ensures KeysBelow(next, 4 * t + 2)
  {
    forall k | 0 <= k < |next| ensures KeyRank(next[k].key) < 4 * t + 2 {
      if k < |rows| {
        assert next[k] == rows[k];
      }
    }
  }

  /* ---- One call ---- */

  // Without a trade on t, the session is quiet; with one, it is the current cycle's.
  lemma TradeKind(cycles: seq<Cycle>, closes: seq<real>, t: nat, i: nat) returns (j: nat)
    requires OnTimeline(cycles, closes) && OkBefore(cycles, closes, t)
    requires !NoTradeAt(cycles, closes, t) && i == Started(cycles, t)
    ensures Trading(cycles, closes, t, i)
    ensures t == ExitSession(cycles[i - 1]) ||
            (j < |SC.Ladder(cycles[i - 1])| && Maturity(SC.Ladder(cycles[i - 1])[j]) == t < ExitSession(cycles[i - 1]))
  {
    hide OnTimeline, OkBefore, CycleFacts, Recovery, Scheduled, CutShort;
    var x :| Scheduled(cycles, Recoveries(cycles, closes), x) && x.session == t;
    TradeIsCurrent(cycles, closes, t, x);
    var c := cycles[i - 1];
    if t == ExitSession(c) {
      j := 0;
    } else {
      j :| 0 <= j < |SC.Ladder(c)| && Maturity(SC.Ladder(c)[j]) == x.session < ExitSession(c);
    }
  }

  lemma EntryOkWhenQuiet(cycles: seq<Cycle>, closes: seq<real>, t: nat)
    requires OnTimeline(cycles, closes) && NoTradeAt(cycles, closes, t)
    ensures EntryOk(cycles, closes, t)
  {
    hide NoTradeAt, CycleFacts, Recovery, CutShort, OnTimeline;
    forall k | 0 <= k < |cycles| && !CutShort(cycles[k], closes) ensures EntrySession(cycles[k]) != t {
      FactsAt(cycles, closes, k);
      QuietCycle(cycles, closes, t, k);
    }
  }

  lemma DueRow(cycles: seq<Cycle>, closes: seq<real>, db: Db, t: nat, i: nat, j: nat) returns (k: nat)
    requires Before(cycles, closes, db, t) && Trading(cycles, closes, t, i)
    requires j < |SC.Ladder(cycles[i - 1])| && Maturity(SC.Ladder(cycles[i - 1])[j]) == t < ExitSession(cycles[i - 1])
    ensures Due(cycles, closes, db, t, i, j, k)
  {
    hide Before, OnTimeline, OkBefore, TableIs, TradesAre, ReturnsAre, CycleFacts, Recovery, CutShort, CoreAt, ValidState;
    BeforeFacts(cycles, closes, db, t);
    k := RowFor(cycles, closes, db.events, t, t, t, i - 1, j);
  }

  lemma ProcessStep(cycles: seq<Cycle>, closes: seq<real>, db: Db, t: nat)
    requires Before(cycles, closes, db, t)
    ensures Process(db, t, |closes|).outcome.Ok? <==> EntryOk(cycles, closes, t)
    ensures EntryOk(cycles, closes, t) ==>
              StoreIs(cycles, closes, End(db, Process(db, t, |closes|).commits), t, t + 1, t, 4 * t + 2)
  {
    hide Before, OnTimeline, OkBefore, TableIs, TradesAre, ReturnsAre, CycleFacts, Recovery, CutShort, CoreAt, ValidState,
      StoreIs, Process, NoTradeAt, EntryOk, UniqueKeys, RisingMaturity, Due, KeysBelow;
    BeforeFacts(cycles, closes, db, t);
    if NoTradeAt(cycles, closes, t) {
      QuietProcess(cycles, closes, db, t);
      QuietKeeps(cycles, closes, db, t);
      EntryOkWhenQuiet(cycles, closes, t);
    } else {
      var i := Current(cycles, closes, t);
      var j := TradeKind(cycles, closes, t, i);
      EntryIffCalendar(cycles, closes, t, i);
      if t == ExitSession(cycles[i - 1]) {
        ExitProcess(cycles, closes, db, t, i);
      } else {
        var k := DueRow(cycles, closes, db, t, i, j);
        if j == 0 {
          FirstOfLadder(cycles[i - 1], closes);
          EntryProcess(cycles, closes, db, t, i, k);
        } else {
          ScaleProcess(cycles, closes, db, t, i, j, k);
        }
      }
    }
  }
}
