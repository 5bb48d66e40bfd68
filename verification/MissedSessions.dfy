// process_execution_session fails closed: exactly when a session was missed, for any store.
module MissedSessions {
  import opened Common
  import opened RecoveryTables
  import opened Dispatcher
  import opened StoreLemmas
  import opened StoreSteps
  import FinalSchedule

  predicate Missed<T>(r: Result<T, StoreError>) {
    r.Err? && (r.error.MaturityMissed? || r.error.ExitMissed?)
  }

  /* ---- Errors of the steps ---- */

  lemma TransitionMisses(db: Db, key: TransitionKey, toPhase: Phase, reason: Reason, updates: Updates, payload: TransitionPayload)
    ensures !Missed(Transition(db, key, toPhase, reason, updates, payload))
  {
  }

  lemma {:induction false} CancelMisses(db: Db, rows: seq<EventRow>, bound: Option<nat>, sessionCount: nat)
    ensures !Missed(CancelRows(db, rows, bound, sessionCount).outcome)
    decreases |rows|
  {
    if rows != [] {
      CancelMisses(db, rows[1..], bound, sessionCount);
      if SetStatus(db, rows[0].key, Cancelled).Ok? {
        CancelMisses(SetStatus(db, rows[0].key, Cancelled).value, rows[1..], bound, sessionCount);
      }
    }
  }

  lemma CutMisses(db: Db, cycleId: nat, bound: Option<nat>, sessionCount: nat)
    ensures !Missed(CancelOpen(db, cycleId, bound, sessionCount).outcome)
  {
    CancelMisses(db, PendingEvents(db, Some(cycleId)), bound, sessionCount);
  }

  lemma MaturedMisses(db: Db, row: EventRow, session: nat, sessionCount: nat)
    ensures !Missed(ApplyMatured(db, row, session, sessionCount).outcome)
  {
    hide Transition, CancelOpen, SetStatus, ValidState;
    FinishMisses();
    TransitionMisses(db, ApplyKey(row.key), RecoveryActive, ApplyScaleUp, NO_UPDATES.(target := Set(row.target)), ApplyPayload(row.key, row.maturity));
    var entered := Transition(db, ApplyKey(row.key), RecoveryActive, ApplyFirstEntry, EntryUpdates(row.target, session), ApplyPayload(row.key, row.maturity));
    TransitionMisses(db, ApplyKey(row.key), RecoveryActive, ApplyFirstEntry, EntryUpdates(row.target, session), ApplyPayload(row.key, row.maturity));
    if entered.Ok? {
      CutMisses(entered.value, row.cycleId, Some(session + FinalSchedule.FIXED_HOLD), sessionCount);
    }
  }

  lemma FinishMisses()
    ensures forall db, key :: !Missed(FinishDue(db, key).outcome)
  {
  }

  lemma ResumeMisses(db: Db, row: EventRow, session: nat, sessionCount: nat)
    ensures !Missed(ResumeOrApply(db, row, session, sessionCount).outcome)
  {
    hide Transition, ApplyMatured, FinishDue, SetStatus;
    FinishMisses();
    MaturedMisses(db, row, session, sessionCount);
    match FindTransition(db.transitions, ApplyKey(row.key))
    case Some(recorded) => TransitionMisses(db, recorded.key, recorded.toPhase, recorded.reason, recorded.updates, recorded.payload);
    case None =>
  }

  lemma DueMisses(db: Db, row: EventRow, session: nat, sessionCount: nat)
    ensures !Missed(ApplyDue(db, row, session, sessionCount).outcome)
  {
    hide ResumeOrApply;
    ResumeMisses(db, row, session, sessionCount);
    if SetStatus(db, row.key, Matured).Ok? {
      ResumeMisses(SetStatus(db, row.key, Matured).value, row, session, sessionCount);
    }
  }

  lemma {:induction false} AllMiss(db: Db, due: seq<EventRow>, session: nat, sessionCount: nat)
    ensures !Missed(ApplyAll(db, due, session, sessionCount).outcome)
    decreases |due|
  {
    hide ApplyDue;
    if due != [] {
      DueMisses(db, due[0], session, sessionCount);
      AllMiss(End(db, ApplyDue(db, due[0], session, sessionCount).commits), due[1..], session, sessionCount);
    }
  }

  lemma ExitMisses(db: Db, exit: nat, sessionCount: nat)
    ensures !Missed(ProcessExit(db, exit, sessionCount).outcome)
  {
    hide CancelOpen, Transition;
    CutMisses(db, CycleOf(db.state), None, sessionCount);
    var cut := End(db, CancelOpen(db, CycleOf(db.state), None, sessionCount).commits);
    TransitionMisses(cut, FixedExitKey(CycleOf(cut.state), exit), OldAthGuard, H378FixedExit, NO_UPDATES.(target := Set(0)), NoPayload);
    var exited := Transition(cut, FixedExitKey(CycleOf(cut.state), exit), OldAthGuard, H378FixedExit, NO_UPDATES.(target := Set(0)), NoPayload);
    if exited.Ok? {
      RearmMisses(exited.value);
    }
  }

  lemma RearmMisses(db: Db)
    ensures !Missed(RearmIfReady(db).outcome)
  {
    hide Transition;
    var s := db.state;
    TransitionMisses(db, RearmAfterExitKey(CycleOf(s), if s.fixedExit.Some? then s.fixedExit.value else 0), Normal,
                     RearmAfterFixedExit, CLEAR_CYCLE, NoPayload);
  }

  /* ---- The due rows ---- */

  ghost predicate Rising(rows: seq<EventRow>) {
    forall i, j :: 0 <= i < j < |rows| ==> rows[i].maturity <= rows[j].maturity
  }

  lemma {:induction false} DueRowsError(rows: seq<EventRow>, session: nat, sessionCount: nat)
    requires session < sessionCount && Rising(rows)
    ensures var r := DueRows(rows, session, sessionCount);
            && (r == Err(MaturityMissed) <==> rows != [] && rows[0].maturity < session)
            && (r == Err(SessionAbsent) <==> rows != [] && rows[0].maturity >= session && Last(rows).maturity >= sessionCount)
            && (r.Err? ==> r == Err(MaturityMissed) || r == Err(SessionAbsent))
  {
    if |rows| > 1 {
      var front := DropLast(rows);
      DueRowsError(front, session, sessionCount);
      assert front[0] == rows[0] && Last(front) == rows[|rows| - 2];
    } else if |rows| == 1 {
      assert DropLast(rows) == [];
    }
  }

  ghost predicate OpenOf(db: Db, row: EventRow) {
    row in db.events && Open(row) && row.cycleId == CycleOf(db.state)
  }

  ghost predicate SomeBefore(db: Db, session: nat) {
    exists row :: OpenOf(db, row) && row.maturity < session
  }

  ghost predicate SomeBeyond(db: Db, sessionCount: nat) {
    exists row :: OpenOf(db, row) && row.maturity >= sessionCount
  }

  lemma MaturityIsTotal()
    ensures TotalOrder(EarlierMaturity)
  {
  }

  lemma PendingMissed(db: Db, session: nat, sessionCount: nat)
    requires session < sessionCount
    ensures var r := DueRows(PendingEvents(db, Some(CycleOf(db.state))), session, sessionCount);
            && (r == Err(MaturityMissed) <==> SomeBefore(db, session))
            && (r == Err(SessionAbsent) <==> !SomeBefore(db, session) && SomeBeyond(db, sessionCount))
            && (r.Err? ==> r == Err(MaturityMissed) || r == Err(SessionAbsent))
  {
    hide Sort, OpenRows, DueRows;
    var cycleId := Some(CycleOf(db.state));
    var open, rows := OpenRows(db.events, cycleId), PendingEvents(db, cycleId);
    MaturityIsTotal();
    SortSorts(EarlierMaturity, open);
    forall row ensures row in rows <==> OpenOf(db, row) {
      SortMembers(EarlierMaturity, open, row);
      OpenRowsMembers(db.events, cycleId, row);
    }
    DueRowsError(rows, session, sessionCount);
    if rows != [] {
      assert rows[0] in rows && Last(rows) in rows;
      forall row | OpenOf(db, row) ensures rows[0].maturity <= row.maturity <= Last(rows).maturity {
        assert row in rows;
        var k :| 0 <= k < |rows| && rows[k] == row;
      }
    }
  }

  /* ---- A session ---- */

  // The exit of an active cycle is before the session.
  ghost predicate ExitBefore(db: Db, session: nat) {
    db.state.phase.RecoveryActive? && db.state.fixedExit.Some? && db.state.fixedExit.value < session
  }

  // A cycle is waiting, or active with its exit still to come.
  ghost predicate Awaits(db: Db, session: nat, sessionCount: nat) {
    || db.state.phase.WaitD40?
    || (db.state.phase.RecoveryActive? && db.state.fixedExit.Some? && session < db.state.fixedExit.value < sessionCount)
  }

  // For any store and any session of the calendar: it raises for a missed maturity exactly if an
  // open event of the live cycle matures before the session, and for a missed exit exactly if the
  // exit lies before it; and then nothing is written.
  lemma FailsClosed(db: Db, session: nat, sessionCount: nat)
    requires session < sessionCount
    ensures var run := Process(db, session, sessionCount);
            && (run.outcome == Err(MaturityMissed) <==> Awaits(db, session, sessionCount) && SomeBefore(db, session))
            && (run.outcome == Err(ExitMissed) <==> ExitBefore(db, session))
            && (Missed(run.outcome) ==> run.commits == [])
            && (Awaits(db, session, sessionCount) && !SomeBefore(db, session) && SomeBeyond(db, sessionCount) ==>
                  run == Run([], Err(SessionAbsent)))
  {
    hide DueRows, ApplyAll, ProcessExit, RearmIfReady, SomeBefore, SomeBeyond, ValidState;
    PendingMissed(db, session, sessionCount);
    RearmMisses(db);
    ExitMisses(db, session, sessionCount);
    var due := DueRows(PendingEvents(db, Some(CycleOf(db.state))), session, sessionCount);
    if due.Ok? {
      AllMiss(db, due.value, session, sessionCount);
    }
  }
}
