// What the closed form says about the rows of the event table, the journal keys and the
// state row.
module TableFacts {
  import opened Common
  import opened RecoveryTables
  import opened Dispatcher
  import opened StoreLemmas
  import opened StoreSteps
  import opened FinalSchedule
  import opened Timeline
  import opened ClosedForm
  import Robust
  import SC = SourceCompiler

  /* ---- Rows ---- */

  // Row k is the ladder event k of the time line, which is ladder event j of cycle i.
  lemma TableRow(
    cycles: seq<Cycle>, closes: seq<real>, rows: seq<EventRow>, started: nat, executed: nat, observed: nat, k: nat)
    returns (i: nat, j: nat)
    requires OnTimeline(cycles, closes) && TableIs(cycles, closes, rows, started, executed, observed) && k < |rows|
    ensures i < |cycles| && j < |SC.Ladder(cycles[i])| && cycles[i].cycleId == i + 1
    ensures k < |LadderEvents(cycles)| && LadderEvents(cycles)[k] == SC.Ladder(cycles[i])[j]
    ensures var e := SC.Ladder(cycles[i])[j];
            && LadderFacts(e, cycles[i], closes)
            && SC.First(cycles[i]) <= e.signal < started
            && rows[k] == RowOf(e).(status := StatusOf(cycles[i], closes, e, executed, observed))
            && rows[k].key == KeyOf(e) && rows[k].maturity == Maturity(e) && rows[k].cycleId == i + 1
            && Robust.FrozenTarget(rows[k].target) && rows[k].target == e.target > 0
  {
    hide CycleFacts, Recovery, OnTimeline, StatusOf;
    i, j := LadderEventAt(cycles, closes, k);
    FactsAt(cycles, closes, i);
    LadderFactsAt(cycles[i], closes, j);
    LadderBefore(cycles[i], closes, j);
    assert RowIs(cycles, closes, rows[k], LadderEvents(cycles)[k], executed, observed);
  }

  lemma TableKeys(
    cycles: seq<Cycle>, closes: seq<real>, rows: seq<EventRow>, started: nat, executed: nat, observed: nat)
    requires OnTimeline(cycles, closes) && TableIs(cycles, closes, rows, started, executed, observed)
    ensures UniqueKeys(rows) && RisingMaturity(rows)
    ensures forall k :: 0 <= k < |rows| ==> rows[k].key.signal < started
  {
    hide CycleFacts, Recovery, OnTimeline, TableIs, LadderFacts, StatusOf;
    LadderEventsRise(cycles, closes);
    forall m, k | 0 <= m < k < |rows|
      ensures rows[m].key != rows[k].key && rows[m].maturity < rows[k].maturity
    {
      var i, j := TableRow(cycles, closes, rows, started, executed, observed, m);
      var i', j' := TableRow(cycles, closes, rows, started, executed, observed, k);
      assert LadderEvents(cycles)[m].signal < LadderEvents(cycles)[k].signal;
    }
    forall k | 0 <= k < |rows| ensures rows[k].key.signal < started {
      var i, j := TableRow(cycles, closes, rows, started, executed, observed, k);
    }
  }

  // Every ladder event signalled so far has its row.
  lemma RowFor(
    cycles: seq<Cycle>, closes: seq<real>, rows: seq<EventRow>, started: nat, executed: nat, observed: nat, i: nat, j: nat)
    returns (k: nat)
    requires OnTimeline(cycles, closes) && TableIs(cycles, closes, rows, started, executed, observed)
    requires i < |cycles| && j < |SC.Ladder(cycles[i])| && SC.Ladder(cycles[i])[j].signal < started
    ensures k < |rows| && k < |LadderEvents(cycles)| && LadderEvents(cycles)[k] == SC.Ladder(cycles[i])[j]
    ensures rows[k] == RowOf(SC.Ladder(cycles[i])[j])
                         .(status := StatusOf(cycles[i], closes, SC.Ladder(cycles[i])[j], executed, observed))
  {
    hide CycleFacts, Recovery, StatusOf, OnTimeline;
    k := LadderEventOf(cycles, i, j);
    FactsAt(cycles, closes, i);
    LadderFactsAt(cycles[i], closes, j);
    assert LadderEvents(cycles)[k].signal < started;
    assert RowIs(cycles, closes, rows[k], LadderEvents(cycles)[k], executed, observed);
  }

  // An open row belongs to the current cycle and is still to mature, on the calendar.
  lemma OpenRowIsCurrent(
    cycles: seq<Cycle>, closes: seq<real>, rows: seq<EventRow>, started: nat, executed: nat, observed: nat, k: nat)
    requires OnTimeline(cycles, closes) && TableIs(cycles, closes, rows, started, executed, observed)
    requires OkBefore(cycles, closes, started) && started <= executed && started <= observed + 1
    requires k < |rows| && Open(rows[k])
    ensures var i := Started(cycles, started);
            && i > 0 && rows[k].cycleId == i && rows[k].maturity < |closes| && rows[k].status.Pending?
            && (CutShort(cycles[i - 1], closes) ==>
                  observed <= Recovery(cycles[i - 1], closes) < EntrySession(cycles[i - 1]) <= rows[k].maturity)
            && (!CutShort(cycles[i - 1], closes) ==>
                  executed <= rows[k].maturity < ExitSession(cycles[i - 1]))
  {
    hide CycleFacts, Recovery, OnTimeline, TableIs, LadderFacts, OkBefore, SignalOk, EntryOk;
    var c, j := TableRow(cycles, closes, rows, started, executed, observed, k);
    StartedBounds(cycles, closes, started);
    SeenSignal(cycles, closes, c, j, started);
    var i := Started(cycles, started);
    if c < i - 1 {
      EarlierCycleOver(cycles, closes, c, i - 1, started);
    }
  }

  lemma NoOpenRows(
    cycles: seq<Cycle>, closes: seq<real>, db: Db, started: nat, executed: nat, observed: nat)
    requires OnTimeline(cycles, closes) && TableIs(cycles, closes, db.events, started, executed, observed)
    requires OkBefore(cycles, closes, started) && started <= executed && started <= observed + 1
    requires var i := Started(cycles, started);
             i == 0 || (if CutShort(cycles[i - 1], closes) then Recovery(cycles[i - 1], closes) < observed
                        else ExitSession(cycles[i - 1]) <= executed)
    ensures forall row :: row in db.events ==> !Open(row)
  {
    hide CycleFacts, Recovery, OnTimeline, TableIs, LadderFacts, OkBefore, SignalOk, EntryOk;
    forall row | row in db.events ensures !Open(row) {
      var k :| 0 <= k < |db.events| && db.events[k] == row;
      if Open(row) {
        OpenRowIsCurrent(cycles, closes, db.events, started, executed, observed, k);
      }
    }
  }

  // The table after a step that changes statuses only.
  lemma TableStep(
    cycles: seq<Cycle>, closes: seq<real>, rows: seq<EventRow>, next: seq<EventRow>, started: nat,
    executed: nat, observed: nat, executed': nat, observed': nat)
    requires TableIs(cycles, closes, rows, started, executed, observed)
    requires |next| == |rows|
    requires forall k :: 0 <= k < |rows| && k < |LadderEvents(cycles)| ==>
               var e := LadderEvents(cycles)[k];
               1 <= e.cycleId <= |cycles| ==>
               next[k] == rows[k].(status := StatusOf(cycles[e.cycleId - 1], closes, e, executed', observed'))
    ensures TableIs(cycles, closes, next, started, executed', observed')
  {
    hide StatusOf, LadderEvents;
    var events := LadderEvents(cycles);
    forall k | 0 <= k < |next| ensures events[k].signal < started && RowIs(cycles, closes, next[k], events[k], executed', observed') {
      assert RowIs(cycles, closes, rows[k], events[k], executed, observed);
    }
  }

  /* ---- Targets ---- */

  // Between the maturity of ladder event j and the next one, the target is that of event j.
  lemma {:induction false} TargetByAt(ladder: seq<SourceEvent>, j: nat, executed: nat)
    requires j < |ladder| && RisingSignals(ladder)
    requires Maturity(ladder[j]) < executed && (j + 1 < |ladder| ==> executed <= Maturity(ladder[j + 1]))
    ensures TargetBy(ladder, executed) == ladder[j].target
  {
    if j < |ladder| - 1 {
      assert ladder[j + 1].signal <= ladder[|ladder| - 1].signal by {
        if j + 1 < |ladder| - 1 {
          assert ladder[j + 1].signal < ladder[|ladder| - 1].signal;
        }
      }
      var front := DropLast(ladder);
      assert RisingSignals(front);
      TargetByAt(front, j, executed);
    }
  }

  // The last event to have matured.
  lemma {:induction false} MaturedIndex(ladder: seq<SourceEvent>, executed: nat) returns (j: nat)
    requires |ladder| > 0 && Maturity(ladder[0]) < executed && RisingSignals(ladder)
    ensures j < |ladder| && Maturity(ladder[j]) < executed
    ensures j + 1 < |ladder| ==> executed <= Maturity(ladder[j + 1])
    ensures TargetBy(ladder, executed) == ladder[j].target
  {
    j := |ladder| - 1;
    while Maturity(ladder[j]) >= executed
      invariant j < |ladder|
      invariant j + 1 < |ladder| ==> executed <= Maturity(ladder[j + 1])
      decreases j
    {
      j := j - 1;
    }
    TargetByAt(ladder, j, executed);
  }

  lemma TargetInRange(c: Cycle, closes: seq<real>, executed: nat)
    requires CycleFacts(c, closes, c.cycleId) && EntrySession(c) < executed
    ensures Robust.FrozenTarget(TargetBy(SC.Ladder(c), executed)) && TargetBy(SC.Ladder(c), executed) > 0
  {
    LadderRises(c, closes);
    FirstOfLadder(c, closes);
    var j := MaturedIndex(SC.Ladder(c), executed);
    LadderFactsAt(c, closes, j);
  }

  // Ladder event j >= 1 raises the target when it matures.
  lemma TargetRises(c: Cycle, closes: seq<real>, j: nat, t: nat)
    requires CycleFacts(c, closes, c.cycleId) && 0 < j < |SC.Ladder(c)| && Maturity(SC.Ladder(c)[j]) == t
    ensures TargetBy(SC.Ladder(c), t) < SC.Ladder(c)[j].target == TargetBy(SC.Ladder(c), t + 1)
    ensures EntrySession(c) < t
  {
    var ladder := SC.Ladder(c);
    LadderRises(c, closes);
    assert ladder[j - 1].signal < ladder[j].signal;
    assert ladder[0].signal < ladder[j].signal;
    TargetByAt(ladder, j - 1, t);
    TargetByAt(ladder, j, t + 1);
  }

  // Nothing matures, nothing changes.
  lemma {:induction false} TargetStays(ladder: seq<SourceEvent>, t: nat)
    requires forall j :: 0 <= j < |ladder| ==> Maturity(ladder[j]) != t
    ensures TargetBy(ladder, t) == TargetBy(ladder, t + 1)
  {
    if ladder != [] {
      TargetStays(DropLast(ladder), t);
    }
  }

  /* ---- The state row ---- */

  lemma StateIsValid(cycles: seq<Cycle>, closes: seq<real>, s: RecoveryState, started: nat, executed: nat, observed: nat)
    requires OnTimeline(cycles, closes)
    requires s.revision >= 1 && s.reserve == 0.0
    requires CoreOfState(s) == CoreAt(cycles, closes, started, executed, observed)
    ensures ValidState(s)
  {
    hide CycleFacts, Recovery, LadderFacts, CutShort;
    var i := Started(cycles, started);
    if i > 0 {
      FactsAt(cycles, closes, i - 1);
      FirstOfLadder(cycles[i - 1], closes);
      if executed > EntrySession(cycles[i - 1]) {
        TargetInRange(cycles[i - 1], closes, executed);
      }
    }
  }

  // A key of this rank or later is not in the journal.
  lemma FreshKey(rows: seq<TransitionRow>, rank: nat, key: TransitionKey)
    requires KeysBelow(rows, rank) && KeyRank(key) >= rank
    ensures FindTransition(rows, key).None?
  {
  }

  lemma UnseenEvent(rows: seq<EventRow>, e: SourceEvent)
    requires forall k :: 0 <= k < |rows| ==> rows[k].key.signal < e.signal
    ensures FindEvent(rows, KeyOf(e)).None?
  {
  }
}
