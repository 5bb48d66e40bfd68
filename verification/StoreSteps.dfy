// What the dispatcher's operations do to any store that meets the stated facts: the
// resulting tables written out.
module StoreSteps {
  import opened Common
  import opened RecoveryTables
  import opened Dispatcher
  import opened StoreLemmas
  import opened FinalSchedule
  import Robust

  // The tables after one journaled transition.
  function Moved(
    db: Db, key: TransitionKey, toPhase: Phase, reason: Reason, updates: Updates, payload: TransitionPayload): Db
  {
    var s := db.state;
    db.(state := ApplyUpdates(s, toPhase, updates).(revision := s.revision + 1),
        transitions := db.transitions +
          [TransitionRow(key, s.revision, s.revision + 1, s.phase, toPhase, reason, updates, payload)])
  }

  // A transition on a fresh key that keeps the state valid is journaled.
  lemma TransitionMoves(
    db: Db, key: TransitionKey, toPhase: Phase, reason: Reason, updates: Updates, payload: TransitionPayload)
    requires FindTransition(db.transitions, key).None?
    requires AllowedPhase(db.state.phase, toPhase)
    requires ValidState(ApplyUpdates(db.state, toPhase, updates))
    requires db.state.phase.RecoveryActive? && toPhase.RecoveryActive? ==>
               ApplyUpdates(db.state, toPhase, updates).target >= db.state.target
               && updates.firstEntry.Keep? && updates.fixedExit.Keep?
    ensures Transition(db, key, toPhase, reason, updates, payload) == Ok(Moved(db, key, toPhase, reason, updates, payload))
  {
  }

  // The store after a due event has been applied and marked.
  function Applying(db: Db, row: EventRow, reason: Reason, updates: Updates): Db {
    Moved(db, ApplyKey(row.key), RecoveryActive, reason, updates, ApplyPayload(row.key, row.maturity))
      .(events := WithStatus(db.events, row.key, Applied))
  }

  // Row k is pending and due, its cycle is the current one, and it has not been applied.
  ghost predicate DueAt(db: Db, k: nat) {
    && k < |db.events|
    && UniqueKeys(db.events)
    && ValidState(db.state)
    && db.events[k].status.Pending?
    && db.state.cycleId == Some(db.events[k].cycleId)
    && Robust.FrozenTarget(db.events[k].target) && db.events[k].target > 0
    && FindTransition(db.transitions, ApplyKey(db.events[k].key)).None?
  }

  ghost predicate OpenBefore(db: Db, cycleId: nat, bound: nat, sessionCount: nat) {
    forall row :: row in db.events && Open(row) && row.cycleId == cycleId ==> row.maturity < bound && row.maturity < sessionCount
  }

  lemma MarkMatured(db: Db, k: nat) returns (matured: Db)
    requires DueAt(db, k)
    ensures matured == db.(events := WithStatus(db.events, db.events[k].key, Matured))
    ensures SetStatus(db, db.events[k].key, Matured) == Ok(matured)
    ensures matured.events[k] == db.events[k].(status := Matured) && UniqueKeys(matured.events)
  {
    matured := db.(events := WithStatus(db.events, db.events[k].key, Matured));
    SetStatusAt(db, k, Matured);
  }

  lemma MarkApplied(was: seq<EventRow>, db: Db, k: nat)
    requires UniqueKeys(was) && k < |was| && db.events == WithStatus(was, was[k].key, Matured)
    ensures FinishDue(db, was[k].key) == Run([db.(events := WithStatus(was, was[k].key, Applied))], Ok(()))
  {
    var matured := db.events;
    assert matured[k] == was[k].(status := Matured);
    assert UniqueKeys(matured);
    SetStatusAt(db, k, Applied);
    StatusTwice(was, was[k].key, Matured, Applied);
  }

  // The bounded cancellation that follows the first entry has nothing to cancel.
  lemma BoundedCutIsVacuous(db: Db, cycleId: nat, bound: nat, sessionCount: nat)
    requires bound < sessionCount && OpenBefore(db, cycleId, bound, sessionCount)
    ensures CancelOpen(db, cycleId, Some(bound), sessionCount) == Run([], Ok(()))
  {
    var rows := PendingEvents(db, Some(cycleId));
    forall i | 0 <= i < |rows| ensures rows[i].maturity < bound && rows[i].maturity < sessionCount {
      SortMembers(EarlierMaturity, OpenRows(db.events, Some(cycleId)), rows[i]);
      OpenRowsMembers(db.events, Some(cycleId), rows[i]);
    }
    CancelRowsSpares(db, rows, bound, sessionCount);
  }

  // First entry: the clock starts, later open events keep waiting.
  lemma EntryDoes(db: Db, k: nat, session: nat, sessionCount: nat)
    requires DueAt(db, k) && db.state.phase.WaitD40?
    requires session + FIXED_HOLD < sessionCount
    requires OpenBefore(db, db.events[k].cycleId, session + FIXED_HOLD, sessionCount)
    ensures var row := db.events[k];
            var run := ApplyDue(db, row, session, sessionCount);
            run.outcome == Ok(()) && End(db, run.commits) == Applying(db, row, ApplyFirstEntry, EntryUpdates(row.target, session))
  {
    hide SetStatus, CancelOpen, Transition, WithStatus, UniqueKeys, OpenBefore, ValidState, FindTransition;
    var row := db.events[k];
    var matured := MarkMatured(db, k);
    var updates, payload := EntryUpdates(row.target, session), ApplyPayload(row.key, row.maturity);
    EntryStateValid(db.state, row.target, session);
    TransitionMoves(matured, ApplyKey(row.key), RecoveryActive, ApplyFirstEntry, updates, payload);
    var entered := Moved(matured, ApplyKey(row.key), RecoveryActive, ApplyFirstEntry, updates, payload);
    OpenAfterStatus(db, k, entered, session + FIXED_HOLD, sessionCount);
    BoundedCutIsVacuous(entered, row.cycleId, session + FIXED_HOLD, sessionCount);
    MarkApplied(db.events, entered, k);
    assert [entered] + [] == [entered];
    assert ApplyMatured(matured, row, session, sessionCount) ==
           After([entered] + [], FinishDue(entered, row.key));
  }

  lemma EntryStateValid(s: RecoveryState, target: int, session: nat)
    requires ValidState(s) && s.phase.WaitD40? && Robust.FrozenTarget(target) && target > 0
    ensures ValidState(ApplyUpdates(s, RecoveryActive, EntryUpdates(target, session)))
  {
  }

  lemma OpenAfterStatus(db: Db, k: nat, next: Db, bound: nat, sessionCount: nat)
    requires k < |db.events| && Open(db.events[k])
    requires next.events == WithStatus(db.events, db.events[k].key, Matured)
    requires UniqueKeys(db.events)
    requires OpenBefore(db, db.events[k].cycleId, bound, sessionCount)
    ensures OpenBefore(next, db.events[k].cycleId, bound, sessionCount)
  {
    forall row | row in next.events && Open(row) && row.cycleId == db.events[k].cycleId
      ensures row.maturity < bound && row.maturity < sessionCount
    {
      var m :| 0 <= m < |next.events| && next.events[m] == row;
      assert db.events[m] in db.events;
      assert m != k ==> db.events[m].key != db.events[k].key;
    }
  }

  // Scale-up: only the target changes.
  lemma ScaleDoes(db: Db, k: nat, session: nat, sessionCount: nat)
    requires DueAt(db, k) && db.state.phase.RecoveryActive?
    requires session < db.state.fixedExit.value < sessionCount
    requires db.state.target < db.events[k].target
    ensures var row := db.events[k];
            var run := ApplyDue(db, row, session, sessionCount);
            run.outcome == Ok(()) && End(db, run.commits) == Applying(db, row, ApplyScaleUp, NO_UPDATES.(target := Set(row.target)))
  {
    hide SetStatus, Transition, WithStatus, UniqueKeys, FindTransition;
    var row := db.events[k];
    var matured := MarkMatured(db, k);
    var updates, payload := NO_UPDATES.(target := Set(row.target)), ApplyPayload(row.key, row.maturity);
    TransitionMoves(matured, ApplyKey(row.key), RecoveryActive, ApplyScaleUp, updates, payload);
    var scaled := Moved(matured, ApplyKey(row.key), RecoveryActive, ApplyScaleUp, updates, payload);
    MarkApplied(db.events, scaled, k);
  }

  // The rows that are open for a cycle, none missed.
  ghost predicate OpenFrom(db: Db, cycleId: nat, session: nat, sessionCount: nat) {
    forall row :: row in db.events && Open(row) && row.cycleId == cycleId ==> session <= row.maturity < sessionCount
  }

  lemma DueList(db: Db, cycleId: nat, session: nat, sessionCount: nat)
    requires RisingMaturity(db.events) && OpenFrom(db, cycleId, session, sessionCount)
    ensures var due := DueRows(PendingEvents(db, Some(cycleId)), session, sessionCount);
            && due.Ok?
            && (forall row :: row in db.events && Open(row) && row.cycleId == cycleId && row.maturity == session ==> due.value == [row])
            && ((forall row :: row in db.events && Open(row) && row.cycleId == cycleId ==> row.maturity != session) ==> due.value == [])
  {
    PendingInOrder(db, Some(cycleId));
    var rows := OpenRows(db.events, Some(cycleId));
    forall i | 0 <= i < |rows| ensures rows[i] in db.events && Open(rows[i]) && rows[i].cycleId == cycleId {
      OpenRowsMembers(db.events, Some(cycleId), rows[i]);
    }
    DueRowsOf(rows, session, sessionCount);
    forall row | row in db.events && Open(row) && row.cycleId == cycleId && row.maturity == session
      ensures DueRows(rows, session, sessionCount).value == [row]
    {
      OpenRowsMembers(db.events, Some(cycleId), row);
      var p :| 0 <= p < |rows| && rows[p] == row;
    }
  }

  // A session with no due row changes nothing.
  lemma NothingDue(db: Db, session: nat, sessionCount: nat)
    requires RisingMaturity(db.events) && ValidState(db.state)
    requires OpenFrom(db, CycleOf(db.state), session + 1, sessionCount)
    ensures ProcessDue(db, session, sessionCount) == Run([], Ok(SessionResult([], false, false)))
  {
    DueList(db, CycleOf(db.state), session, sessionCount);
    assert Keys([]) == [];
  }

  // A session with row k due applies it.
  lemma OneDue(db: Db, k: nat, session: nat, sessionCount: nat, next: Db)
    requires RisingMaturity(db.events) && k < |db.events| && Open(db.events[k])
    requires CycleOf(db.state) == db.events[k].cycleId && db.events[k].maturity == session
    requires OpenFrom(db, CycleOf(db.state), session, sessionCount)
    requires ApplyDue(db, db.events[k], session, sessionCount).outcome == Ok(())
    requires End(db, ApplyDue(db, db.events[k], session, sessionCount).commits) == next && ValidState(next.state)
    ensures var run := ProcessDue(db, session, sessionCount);
            run.outcome == Ok(SessionResult([db.events[k].key], false, false)) && End(db, run.commits) == next
  {
    hide ApplyDue, DueRows, PendingEvents, ValidState, OpenFrom;
    var row := db.events[k];
    DueList(db, CycleOf(db.state), session, sessionCount);
    assert row in db.events;
    var head := ApplyDue(db, row, session, sessionCount);
    assert [row][1..] == [] && head.commits + [] == head.commits;
    assert ApplyAll(End(db, head.commits), [], session, sessionCount) == Run([], Ok(()));
    assert ApplyAll(db, [row], session, sessionCount) == Run(head.commits, Ok(()));
    assert Keys([row]) == [row.key];
  }

  lemma OneDueFails(db: Db, k: nat, session: nat, sessionCount: nat)
    requires RisingMaturity(db.events) && k < |db.events| && Open(db.events[k])
    requires CycleOf(db.state) == db.events[k].cycleId && db.events[k].maturity == session
    requires OpenFrom(db, CycleOf(db.state), session, sessionCount)
    requires ApplyDue(db, db.events[k], session, sessionCount).outcome.Err?
    ensures ProcessDue(db, session, sessionCount).outcome.Err?
  {
    hide ApplyDue, DueRows, PendingEvents, ValidState, OpenFrom;
    DueList(db, CycleOf(db.state), session, sessionCount);
    assert db.events[k] in db.events;
  }

  // An entry whose exit lies beyond the calendar raises.
  lemma EntryFails(db: Db, k: nat, session: nat, sessionCount: nat)
    requires DueAt(db, k) && db.state.phase.WaitD40?
    requires session + FIXED_HOLD >= sessionCount
    ensures ApplyDue(db, db.events[k], session, sessionCount).outcome == Err(CalendarEnds)
  {
    hide SetStatus, WithStatus, UniqueKeys, ValidState, FindTransition;
    var matured := MarkMatured(db, k);
  }

  lemma NothingToCancel(db: Db, cycleId: Option<nat>)
    requires forall row :: row in db.events && Open(row) ==> cycleId.Some? && row.cycleId != cycleId.value
    ensures PendingEvents(db, cycleId) == []
  {
    NothingOpen(db.events, cycleId);
  }

  const EXIT_UPDATES := NO_UPDATES.(target := Set(0))

  lemma StillAbsent(rows: seq<TransitionRow>, row: TransitionRow, key: TransitionKey)
    requires FindTransition(rows, key).None? && row.key != key
    ensures FindTransition(rows + [row], key).None?
  {
    assert DropLast(rows + [row]) == rows;
  }

  // The fixed exit, when nothing is left open; the return to NORMAL is immediate if the
  // old ATH was seen while active.
  lemma ExitDoes(db: Db, exit: nat, sessionCount: nat)
    requires ValidState(db.state) && db.state.phase.RecoveryActive? && db.state.fixedExit == Some(exit)
    requires PendingEvents(db, db.state.cycleId) == []
    requires FindTransition(db.transitions, FixedExitKey(CycleOf(db.state), exit)).None?
    requires FindTransition(db.transitions, RearmAfterExitKey(CycleOf(db.state), exit)).None?
    ensures var run := ProcessExit(db, exit, sessionCount);
            var id := CycleOf(db.state);
            var exited := Moved(db, FixedExitKey(id, exit), OldAthGuard, H378FixedExit, EXIT_UPDATES, NoPayload);
            && run.outcome == Ok(SessionResult([], true, db.state.recovered))
            && End(db, run.commits) ==
               if db.state.recovered
               then Moved(exited, RearmAfterExitKey(id, exit), Normal, RearmAfterFixedExit, CLEAR_CYCLE, NoPayload)
               else exited
  {
    hide Transition, PendingEvents, FindTransition;
    var id := CycleOf(db.state);
    assert CancelOpen(db, id, None, sessionCount) == Run([], Ok(()));
    TransitionMoves(db, FixedExitKey(id, exit), OldAthGuard, H378FixedExit, EXIT_UPDATES, NoPayload);
    var exited := Moved(db, FixedExitKey(id, exit), OldAthGuard, H378FixedExit, EXIT_UPDATES, NoPayload);
    if db.state.recovered {
      StillAbsent(db.transitions, Last(exited.transitions), RearmAfterExitKey(id, exit));
      TransitionMoves(exited, RearmAfterExitKey(id, exit), Normal, RearmAfterFixedExit, CLEAR_CYCLE, NoPayload);
    }
  }

  // Observing the old ATH before the first entry cancels the cycle and its open events.
  lemma CancelDoes(db: Db, session: nat, close: real, sessionCount: nat)
    requires ValidState(db.state) && db.state.phase.WaitD40?
    requires close > 0.0 && close + TOL >= db.state.oldAth.value
    requires UniqueKeys(db.events) && RisingMaturity(db.events)
    requires FindTransition(db.transitions, CancelKey(CycleOf(db.state), session)).None?
    ensures var run := ObserveClose(db, session, close, sessionCount);
            var id := CycleOf(db.state);
            var open := OpenRows(db.events, Some(id));
            && run.outcome == Ok(CancelledBeforeFirstEntry)
            && End(db, run.commits) ==
               Moved(db.(events := CancelAll(db.events, open)), CancelKey(id, session), Normal,
                     OldAthBeforeFirstEntry, CLEAR_CYCLE, NoPayload)
  {
    hide Transition, CancelRows, OpenRows, FindTransition, UniqueKeys, RisingMaturity, CancelAll;
    var id := CycleOf(db.state);
    var open := OpenRows(db.events, Some(id));
    PendingInOrder(db, Some(id));
    OpenRowsListed(db.events, Some(id));
    CancelRowsDoes(db, open, sessionCount);
    var cut := CancelOpen(db, id, None, sessionCount);
    var cancelled := db.(events := CancelAll(db.events, open));
    TransitionMoves(cancelled, CancelKey(id, session), Normal, OldAthBeforeFirstEntry, CLEAR_CYCLE, NoPayload);
    var last := CloseTransition(cancelled, CancelKey(id, session), Normal, OldAthBeforeFirstEntry, CLEAR_CYCLE, CancelledBeforeFirstEntry);
    EndAfter(db, cut.commits, last.commits);
  }

  lemma RecoveredDoes(db: Db, session: nat, close: real, sessionCount: nat)
    requires ValidState(db.state) && db.state.phase.RecoveryActive? && !db.state.recovered
    requires close > 0.0 && close + TOL >= db.state.oldAth.value
    requires FindTransition(db.transitions, RecoveredKey(CycleOf(db.state), session)).None?
    ensures var run := ObserveClose(db, session, close, sessionCount);
            && run.outcome == Ok(OldAthRecoveryRecorded)
            && End(db, run.commits) ==
               Moved(db, RecoveredKey(CycleOf(db.state), session), RecoveryActive, OldAthWhileActive,
                     NO_UPDATES.(recovered := Set(true)), NoPayload)
  {
    hide Transition;
    TransitionMoves(db, RecoveredKey(CycleOf(db.state), session), RecoveryActive, OldAthWhileActive,
                    NO_UPDATES.(recovered := Set(true)), NoPayload);
  }

  lemma RearmDoes(db: Db, session: nat, close: real, sessionCount: nat)
    requires ValidState(db.state) && db.state.phase.OldAthGuard?
    requires close > 0.0 && close + TOL >= db.state.oldAth.value
    requires FindTransition(db.transitions, RearmKey(CycleOf(db.state), session)).None?
    ensures var run := ObserveClose(db, session, close, sessionCount);
            && run.outcome == Ok(RearmedOnOldAth)
            && End(db, run.commits) ==
               Moved(db, RearmKey(CycleOf(db.state), session), Normal, RearmAfterOldAth, CLEAR_CYCLE, NoPayload)
  {
    hide Transition;
    TransitionMoves(db, RearmKey(CycleOf(db.state), session), Normal, RearmAfterOldAth, CLEAR_CYCLE, NoPayload);
  }
}
