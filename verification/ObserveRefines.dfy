// observe_completed_close keeps the closed form, and never raises: a close changes the
// store only on the recovery session of the current cycle.
module ObserveRefines {
  import opened Common
  import opened RecoveryTables
  import opened Dispatcher
  import opened StoreLemmas
  import opened StoreSteps
  import opened FinalSchedule
  import opened Timeline
  import opened ClosedForm
  import opened TableFacts
  import SC = SourceCompiler

  // A store in closed form after the signals of session t.
  ghost predicate Closing(cycles: seq<Cycle>, closes: seq<real>, db: Db, t: nat) {
    && t < |closes| && closes[t] > 0.0 && OnTimeline(cycles, closes) && OkBefore(cycles, closes, t + 1)
    && StoreIs(cycles, closes, db, t + 1, t + 1, t, 4 * t + 3)
  }

  lemma ClosingFacts(cycles: seq<Cycle>, closes: seq<real>, db: Db, t: nat)
    requires Closing(cycles, closes, db, t)
    ensures OnTimeline(cycles, closes) && OkBefore(cycles, closes, t + 1) && t < |closes| && closes[t] > 0.0
    ensures ValidState(db.state) && db.state.revision >= 1 && db.state.reserve == 0.0
    ensures CoreOfState(db.state) == CoreAt(cycles, closes, t + 1, t + 1, t)
    ensures TableIs(cycles, closes, db.events, t + 1, t + 1, t)
    ensures UniqueKeys(db.events) && RisingMaturity(db.events)
    ensures TradesAre(cycles, closes, TradesIn(db.transitions), t + 1)
    ensures ReturnsAre(cycles, closes, ReturnsIn(db.transitions), t + 1, t)
    ensures KeysBelow(db.transitions, 4 * t + 3)
  {
    hide OnTimeline, OkBefore, TableIs, CoreAt, KeysBelow, TradesAre, ReturnsAre, ValidState, UniqueKeys, RisingMaturity;
    TableKeys(cycles, closes, db.events, t + 1, t + 1, t);
    StateIsValid(cycles, closes, db.state, t + 1, t + 1, t);
  }

  // Only the current cycle can have its old ATH back on this very session.
  lemma OthersNotBack(cycles: seq<Cycle>, closes: seq<real>, t: nat, k: nat)
    requires OnTimeline(cycles, closes) && k < |cycles| && k + 1 != Started(cycles, t + 1)
    ensures Recovery(cycles[k], closes) != t
  {
    hide CycleFacts, Recovery;
    StartedBounds(cycles, closes, t + 1);
    FirstBeforeRecovery(cycles, closes, k);
    var i := Started(cycles, t + 1);
    if k + 1 < i {
      assert Recovery(cycles[k], closes) < SC.First(cycles[i - 1]);
    }
  }

  ghost predicate BackNow(cycles: seq<Cycle>, closes: seq<real>, t: nat, i: nat) {
    0 < i == Started(cycles, t + 1) <= |cycles| && Recovery(cycles[i - 1], closes) == t
  }

  lemma CurrentThen(cycles: seq<Cycle>, closes: seq<real>, t: nat) returns (i: nat)
    requires OnTimeline(cycles, closes)
    ensures i == Started(cycles, t + 1) <= |cycles|
    ensures i > 0 ==> CycleFacts(cycles[i - 1], closes, i) && cycles[i - 1].cycleId == i
                      && SC.First(cycles[i - 1]) <= t
                      && CoreAt(cycles, closes, t + 1, t + 1, t) == CycleCore(cycles[i - 1], closes, t + 1, t)
                      && CoreAt(cycles, closes, t + 1, t + 1, t + 1) == CycleCore(cycles[i - 1], closes, t + 1, t + 1)
    ensures i == 0 ==> CoreAt(cycles, closes, t + 1, t + 1, t) == IDLE == CoreAt(cycles, closes, t + 1, t + 1, t + 1)
  {
    hide CycleFacts, Recovery;
    i := Started(cycles, t + 1);
    StartedBounds(cycles, closes, t + 1);
    if i > 0 {
      FactsAt(cycles, closes, i - 1);
    }
  }

  // Statuses once the close is observed: those of a cut cycle that is back now are cancelled.
  lemma CloseTable(cycles: seq<Cycle>, closes: seq<real>, rows: seq<EventRow>, next: seq<EventRow>, t: nat)
    requires OnTimeline(cycles, closes) && TableIs(cycles, closes, rows, t + 1, t + 1, t)
    requires |next| == |rows|
    requires forall k :: 0 <= k < |rows| ==>
               var i := Started(cycles, t + 1);
               next[k] == if BackNow(cycles, closes, t, i) && CutShort(cycles[i - 1], closes) && rows[k].cycleId == i
                          then rows[k].(status := Cancelled) else rows[k]
    ensures TableIs(cycles, closes, next, t + 1, t + 1, t + 1)
  {
    hide OnTimeline, TableIs, CycleFacts, Recovery, LadderFacts, LadderEvents;
    forall k | 0 <= k < |rows| && k < |LadderEvents(cycles)| && 1 <= LadderEvents(cycles)[k].cycleId <= |cycles|
      ensures var e := LadderEvents(cycles)[k];
              next[k] == rows[k].(status := StatusOf(cycles[e.cycleId - 1], closes, e, t + 1, t + 1))
    {
      var m, j := TableRow(cycles, closes, rows, t + 1, t + 1, t, k);
      FactsAt(cycles, closes, m);
      assert SC.Ladder(cycles[m])[j].cycleId == m + 1 by { LadderFactsAt(cycles[m], closes, j); }
      if m + 1 != Started(cycles, t + 1) {
        OthersNotBack(cycles, closes, t, m);
      }
    }
    TableStep(cycles, closes, rows, next, t + 1, t + 1, t, t + 1, t + 1);
  }

  ghost predicate ReturnsNow(cycles: seq<Cycle>, closes: seq<real>, t: nat, i: nat) {
    BackNow(cycles, closes, t, i) && (CutShort(cycles[i - 1], closes) || ExitSession(cycles[i - 1]) <= t)
  }

  lemma CloseReturns(cycles: seq<Cycle>, closes: seq<real>, made: seq<Return>, t: nat)
    requires OnTimeline(cycles, closes) && ReturnsAre(cycles, closes, made, t + 1, t)
    ensures var i := Started(cycles, t + 1);
            ReturnsAre(cycles, closes, if ReturnsNow(cycles, closes, t, i) then made + [Return(i, t)] else made, t + 1, t + 1)
  {
    hide OnTimeline, CycleFacts, Recovery, ReturnsAre;
    var i, u := Started(cycles, t + 1), t + 1;
    forall x ensures Returned(cycles, closes, x, u, u) <==>
                     Returned(cycles, closes, x, u, t) || (ReturnsNow(cycles, closes, t, i) && x == Return(i, t))
    {
      if 1 <= x.cycleId <= |cycles| && x.cycleId != i {
        OthersNotBack(cycles, closes, t, x.cycleId - 1);
      }
    }
    ReturnedEarlier(cycles, closes, made, t);
    AppendClose(cycles, closes, made, t, u, i);
  }

  lemma ReturnedEarlier(cycles: seq<Cycle>, closes: seq<real>, made: seq<Return>, t: nat)
    requires OnTimeline(cycles, closes) && ReturnsAre(cycles, closes, made, t + 1, t)
    ensures var i := Started(cycles, t + 1);
            BackNow(cycles, closes, t, i) ==> forall k :: 0 <= k < |made| ==> made[k].cycleId < i
  {
    hide OnTimeline, CycleFacts, Recovery;
    StartedBounds(cycles, closes, t + 1);
    var i := Started(cycles, t + 1);
    if BackNow(cycles, closes, t, i) {
      forall k | 0 <= k < |made| ensures made[k].cycleId < i {
        assert Returned(cycles, closes, made[k], t + 1, t);
        FirstBeforeRecovery(cycles, closes, made[k].cycleId - 1);
      }
    }
  }

  lemma AppendClose(cycles: seq<Cycle>, closes: seq<real>, made: seq<Return>, t: nat, u: nat, i: nat)
    requires i == Started(cycles, t + 1) && u == t + 1 && ReturnsAre(cycles, closes, made, t + 1, t)
    requires BackNow(cycles, closes, t, i) ==> forall k :: 0 <= k < |made| ==> made[k].cycleId < i
    requires forall x :: Returned(cycles, closes, x, u, u) <==>
               Returned(cycles, closes, x, u, t) || (ReturnsNow(cycles, closes, t, i) && x == Return(i, t))
    ensures ReturnsAre(cycles, closes, if ReturnsNow(cycles, closes, t, i) then made + [Return(i, t)] else made, u, u)
  {
    hide Returned, Recovery, CutShort;
    var next := if ReturnsNow(cycles, closes, t, i) then made + [Return(i, t)] else made;
    forall x ensures x in next <==> Returned(cycles, closes, x, u, u) {
      assert x in made <==> Returned(cycles, closes, x, u, t);
    }
  }

  /* ---- The close by phase ---- */

  // A close above the level comes at the recovery or after it.
  lemma BackBy(c: Cycle, closes: seq<real>, t: nat)
    requires SC.First(c) <= t < |closes|
    ensures closes[t] + TOL >= c.oldAth ==> Recovery(c, closes) <= t
    ensures Recovery(c, closes) == t ==> closes[t] + TOL >= c.oldAth
  {
  }

  lemma QuietClose(cycles: seq<Cycle>, closes: seq<real>, db: Db, t: nat)
    requires Closing(cycles, closes, db, t) && !BackNow(cycles, closes, t, Started(cycles, t + 1))
    ensures ObserveClose(db, t, closes[t], |closes|).outcome.Ok?
    ensures ObserveClose(db, t, closes[t], |closes|).commits == []
    ensures StoreIs(cycles, closes, db, t + 1, t + 1, t + 1, 4 * t + 4)
  {
    hide Closing, OnTimeline, OkBefore, TableIs, CoreAt, TradesAre, ReturnsAre, ValidState, UniqueKeys, RisingMaturity,
      CycleFacts, Recovery, CancelOpen, CloseTransition;
    ClosingFacts(cycles, closes, db, t);
    var i := CurrentThen(cycles, closes, t);
    if i > 0 {
      BackBy(cycles[i - 1], closes, t);
    }
    CloseTable(cycles, closes, db.events, db.events, t);
    CloseReturns(cycles, closes, ReturnsIn(db.transitions), t);
  }

  lemma CancelledTable(cycles: seq<Cycle>, closes: seq<real>, db: Db, t: nat, i: nat)
    requires Closing(cycles, closes, db, t) && BackNow(cycles, closes, t, i) && CutShort(cycles[i - 1], closes)
    ensures TableIs(cycles, closes, CancelAll(db.events, OpenRows(db.events, Some(i))), t + 1, t + 1, t + 1)
  {
    hide Closing, OnTimeline, OkBefore, TableIs, CoreAt, TradesAre, ReturnsAre, ValidState, CycleFacts, Recovery, LadderFacts,
      RisingMaturity, CutShort;
    ClosingFacts(cycles, closes, db, t);
    var open := OpenRows(db.events, Some(i));
    var next := CancelAll(db.events, open);
    if db.events != [] {
      CancelAllAt(db.events, open, 0);
    } else {
      NothingOpen(db.events, Some(i));
    }
    forall k | 0 <= k < |db.events|
      ensures next[k] == if db.events[k].cycleId == i then db.events[k].(status := Cancelled) else db.events[k]
    {
      CancelAllAt(db.events, open, k);
      WasPending(cycles, closes, db, t, i, k);
      OpenRowsMembers(db.events, Some(i), db.events[k]);
      if exists r :: r in open && r.key == db.events[k].key {
        var r :| r in open && r.key == db.events[k].key;
        OpenRowsMembers(db.events, Some(i), r);
        var m :| 0 <= m < |db.events| && db.events[m] == r;
        assert m == k;
      }
    }
    CloseTable(cycles, closes, db.events, next, t);
  }

  lemma WasPending(cycles: seq<Cycle>, closes: seq<real>, db: Db, t: nat, i: nat, k: nat)
    requires Closing(cycles, closes, db, t) && BackNow(cycles, closes, t, i) && CutShort(cycles[i - 1], closes)
    requires k < |db.events|
    ensures db.events[k].cycleId == i ==> Open(db.events[k])
  {
    hide Closing, OnTimeline, OkBefore, TableIs, CoreAt, TradesAre, ReturnsAre, ValidState, CycleFacts, Recovery, LadderFacts;
    ClosingFacts(cycles, closes, db, t);
    var m, j := TableRow(cycles, closes, db.events, t + 1, t + 1, t, k);
  }

  // Before the first entry the cycle is dropped.
  lemma CancelClose(cycles: seq<Cycle>, closes: seq<real>, db: Db, t: nat, i: nat)
    requires Closing(cycles, closes, db, t) && BackNow(cycles, closes, t, i) && CutShort(cycles[i - 1], closes)
    ensures ObserveClose(db, t, closes[t], |closes|).outcome.Ok?
    ensures StoreIs(cycles, closes, End(db, ObserveClose(db, t, closes[t], |closes|).commits), t + 1, t + 1, t + 1, 4 * t + 4)
  {
    hide Closing, OnTimeline, OkBefore, TableIs, TradesAre, ReturnsAre, ValidState, UniqueKeys, RisingMaturity,
      CycleFacts, Recovery, ObserveClose, KeysBelow, Started, CutShort, OpenRows, CancelAll;
    ClosingFacts(cycles, closes, db, t);
    var m := CurrentThen(cycles, closes, t);
    BackBy(cycles[i - 1], closes, t);
    FreshKey(db.transitions, 4 * t + 3, CancelKey(i, t));
    CancelDoes(db, t, closes[t], |closes|);
    CancelledTable(cycles, closes, db, t, i);
    CloseReturns(cycles, closes, ReturnsIn(db.transitions), t);
    var cut := db.(events := CancelAll(db.events, OpenRows(db.events, Some(i))));
    var next := Moved(cut, CancelKey(i, t), Normal, OldAthBeforeFirstEntry, CLEAR_CYCLE, NoPayload);
    JournalClose(cut, next, i, t);
  }

  lemma JournalClose(db: Db, next: Db, i: nat, t: nat)
    requires |next.transitions| == |db.transitions| + 1 && next.transitions[..|db.transitions|] == db.transitions
    requires Last(next.transitions).key in {CancelKey(i, t), RecoveredKey(i, t), RearmKey(i, t)}
    requires KeysBelow(db.transitions, 4 * t + 3)
    ensures TradesIn(next.transitions) == TradesIn(db.transitions)
    ensures ReturnsIn(next.transitions) ==
            ReturnsIn(db.transitions) + if Last(next.transitions).key == RecoveredKey(i, t) then [] else [Return(i, t)]
    ensures KeysBelow(next.transitions, 4 * t + 4)
  {
    assert DropLast(next.transitions) == db.transitions;
    forall k | 0 <= k < |next.transitions| ensures KeyRank(next.transitions[k].key) < 4 * t + 4 {
      if k < |db.transitions| {
        assert next.transitions[k] == db.transitions[k];
      }
    }
  }

  // While active the recovery is only recorded; after the exit it returns the store to NORMAL.
  lemma RecoveryClose(cycles: seq<Cycle>, closes: seq<real>, db: Db, t: nat, i: nat)
    requires Closing(cycles, closes, db, t) && BackNow(cycles, closes, t, i) && !CutShort(cycles[i - 1], closes)
    ensures ObserveClose(db, t, closes[t], |closes|).outcome.Ok?
    ensures StoreIs(cycles, closes, End(db, ObserveClose(db, t, closes[t], |closes|).commits), t + 1, t + 1, t + 1, 4 * t + 4)
  {
    hide Closing, OnTimeline, OkBefore, TableIs, TradesAre, ReturnsAre, ValidState, UniqueKeys, RisingMaturity,
      CycleFacts, Recovery, ObserveClose, KeysBelow, Started;
    ClosingFacts(cycles, closes, db, t);
    var m := CurrentThen(cycles, closes, t);
    BackBy(cycles[i - 1], closes, t);
    CloseTable(cycles, closes, db.events, db.events, t);
    CloseReturns(cycles, closes, ReturnsIn(db.transitions), t);
    if t < ExitSession(cycles[i - 1]) {
      FreshKey(db.transitions, 4 * t + 3, RecoveredKey(i, t));
      RecoveredDoes(db, t, closes[t], |closes|);
      JournalClose(db, Moved(db, RecoveredKey(i, t), RecoveryActive, OldAthWhileActive,
                             NO_UPDATES.(recovered := Set(true)), NoPayload), i, t);
      var next := End(db, ObserveClose(db, t, closes[t], |closes|).commits);
      assert CoreOfState(next.state) == CoreAt(cycles, closes, t + 1, t + 1, t + 1);
      assert !ReturnsNow(cycles, closes, t, i);
      assert ReturnsIn(next.transitions) == ReturnsIn(db.transitions);
    } else {
      FreshKey(db.transitions, 4 * t + 3, RearmKey(i, t));
      RearmDoes(db, t, closes[t], |closes|);
      JournalClose(db, Moved(db, RearmKey(i, t), Normal, RearmAfterOldAth, CLEAR_CYCLE, NoPayload), i, t);
    }
  }

  lemma ObserveStep(cycles: seq<Cycle>, closes: seq<real>, db: Db, t: nat)
    requires Closing(cycles, closes, db, t)
    ensures ObserveClose(db, t, closes[t], |closes|).outcome.Ok?
    ensures StoreIs(cycles, closes, End(db, ObserveClose(db, t, closes[t], |closes|).commits), t + 1, t + 1, t + 1, 4 * t + 4)
  {
    hide Closing, ObserveClose, StoreIs, CutShort, Recovery;
    var i := Started(cycles, t + 1);
    assert closes[t] > 0.0 by { ClosingFacts(cycles, closes, db, t); }
    if !BackNow(cycles, closes, t, i) {
      QuietClose(cycles, closes, db, t);
    } else if CutShort(cycles[i - 1], closes) {
      CancelClose(cycles, closes, db, t, i);
    } else {
      RecoveryClose(cycles, closes, db, t, i);
    }
  }
}
