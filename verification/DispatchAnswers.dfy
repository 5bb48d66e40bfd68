// Which source events the dispatcher takes and which due events it applies, for any store.
module DispatchAnswers {
  import opened Common
  import opened RecoveryTables
  import opened StoreRuns
  import opened StoreLife
  import opened Dispatcher
  import opened SourceCompiler

  /* ---- ingest_source_event ---- */

  // Seen on its signal session, with T+1 on the calendar.
  ghost predicate OnTime(e: SourceEvent, observed: nat, sessionCount: nat) {
    observed == e.signal && e.execution == e.signal + 1 && e.execution < sessionCount
  }

  // A positive rung that matures on the calendar.
  ghost predicate Rung(e: SourceEvent, sessionCount: nat) {
    e.target in {10, 30, 60, 100} && e.execution + 40 < sessionCount
  }

  // Nothing else is queued under its key.
  ghost predicate Queueable(db: Db, e: SourceEvent) {
    forall was :: Queued(db, KeyOf(e), was) ==> was == RowOf(e).(status := was.status)
  }

  ghost predicate Settled(db: Db, e: SourceEvent) {
    exists was :: Queued(db, KeyOf(e), was) && (was.status.Applied? || was.status.Cancelled?)
  }

  ghost predicate Starts(db: Db, e: SourceEvent) {
    Transition(db, StartKey(e.cycleId, e.signal), WaitD40, StartSourceCycle, StartUpdates(e), StartPayload(KeyOf(e), e.oldAthDate)).Ok?
  }

  // It starts a cycle, or belongs to the one that waits or is active and carries its old ATH.
  ghost predicate Joins(db: Db, e: SourceEvent, sessionCount: nat) {
    match db.state.phase
    case Normal => Starts(db, e)
    case OldAthGuard => false
    case _ =>
      && db.state.cycleId == Some(e.cycleId)
      && db.state.oldAth.Some? && -TOL <= db.state.oldAth.value - e.oldAth <= TOL
      && (db.state.phase.RecoveryActive? ==> db.state.fixedExit.Some? && db.state.fixedExit.value < sessionCount)
  }

  // A source event is taken iff it is on time and either a handoff, which is ignored, or a rung that
  // nothing queued contradicts and that is settled already or joins a cycle.
  lemma IngestAnswers(db: Db, e: SourceEvent, observed: nat, sessionCount: nat)
    requires DistinctKeys(db)
    ensures Ingest(db, e, observed, sessionCount).outcome.Ok? <==>
            && OnTime(e, observed, sessionCount)
            && (e.kind.HandoffEvent? ||
                (Rung(e, sessionCount) && Queueable(db, e) && (Settled(db, e) || Joins(db, e, sessionCount))))
  {
    hide JoinCycle, Enqueue, Joins;
    EnqueueAnswers(db, RowOf(e));
    if Enqueue(db, RowOf(e)).Ok? {
      var (queued, row) := Enqueue(db, RowOf(e)).value;
      QueuedRow(db, e, queued, row);
      if !(row.status.Applied? || row.status.Cancelled?) {
        JoinAnswers(db, queued, e, sessionCount);
      }
    }
  }

  // The row read back is the only one of its key.
  lemma QueuedRow(db: Db, e: SourceEvent, queued: Db, row: EventRow)
    requires DistinctKeys(db) && Enqueue(db, RowOf(e)) == Ok((queued, row))
    ensures row.key == KeyOf(e) && (Settled(db, e) <==> row.status.Applied? || row.status.Cancelled?)
    ensures queued.state == db.state && queued.transitions == db.transitions && FindEvent(queued.events, KeyOf(e)) == Some(row)
  {
    match FindEvent(db.events, KeyOf(e))
    case None =>
      assert forall was :: !Queued(db, KeyOf(e), was);
    case Some(found) =>
      forall was | Queued(db, KeyOf(e), was) ensures was == found {
        var i :| 0 <= i < |db.events| && db.events[i] == was;
        var j :| 0 <= j < |db.events| && db.events[j] == found;
      }
      assert Queued(db, KeyOf(e), found);
  }

  lemma JoinAnswers(db: Db, queued: Db, e: SourceEvent, sessionCount: nat)
    requires queued.state == db.state && queued.transitions == db.transitions
    requires FindEvent(queued.events, KeyOf(e)).Some?
    requires var row := FindEvent(queued.events, KeyOf(e)).value; row.status.Pending? || row.status.Matured?
    ensures JoinCycle(queued, e, sessionCount).outcome.Ok? <==> Joins(db, e, sessionCount)
  {
    hide ValidState, FindTransition, FindEvent;
  }

  /* ---- A matured event ---- */

  // A matured event enters a waiting cycle with the whole hold on the calendar, or raises the target
  // of its own cycle before its exit; nothing else is applied.
  lemma OnlyUpBeforeExit(db: Db, row: EventRow, session: nat, sessionCount: nat)
    requires ApplyMatured(db, row, session, sessionCount).outcome.Ok?
    ensures db.state.cycleId == Some(row.cycleId) && row.target in {0, 10, 30, 60, 100}
    ensures || (db.state.phase.WaitD40? && session + 378 < sessionCount)
            || (&& db.state.phase.RecoveryActive? && db.state.fixedExit.Some?
                && session < db.state.fixedExit.value < sessionCount && row.target > db.state.target)
  {
    hide Transition, CancelOpen, FinishDue;
  }

  // Within an active cycle that is exactly what is applied.
  lemma ScaleAnswers(db: Db, row: EventRow, session: nat, sessionCount: nat)
    requires InShape(db.state) && db.state.phase.RecoveryActive? && DistinctKeys(db)
    requires row in db.events && row.status.Matured? && !IsJournaled(db, ApplyKey(row.key))
    ensures ApplyMatured(db, row, session, sessionCount).outcome.Ok? <==>
            && db.state.cycleId == Some(row.cycleId) && row.target in {10, 30, 60, 100} && row.target > db.state.target
            && session < db.state.fixedExit.value < sessionCount
  {
    hide Transition, InShape, SetStatus, FindEvent, DistinctKeys;
    ShapeFacts(db.state);
    if row.target in {10, 30, 60, 100} && row.target > db.state.target {
      var updates := NO_UPDATES.(target := Set(row.target));
      var next := db.state.(target := row.target, revision := db.state.revision + 1);
      RaisedShape(db.state, row.target);
      TransitionAnswers(db, ApplyKey(row.key), RecoveryActive, ApplyScaleUp, updates, ApplyPayload(row.key, row.maturity), next);
      var r := Transition(db, ApplyKey(row.key), RecoveryActive, ApplyScaleUp, updates, ApplyPayload(row.key, row.maturity));
      Finishes(db, r.value, row);
    }
  }

  lemma ShapeFacts(s: RecoveryState)
    requires InShape(s) && s.phase.RecoveryActive?
    ensures s.fixedExit.Some? && s.target > 0
  {
  }

  lemma RaisedShape(s: RecoveryState, target: int)
    requires InShape(s) && s.phase.RecoveryActive? && target in {10, 30, 60, 100}
    ensures InShape(s.(target := target, revision := s.revision + 1))
  {
  }

  lemma Finishes(db: Db, next: Db, row: EventRow)
    requires DistinctKeys(db) && next.events == db.events && row in db.events && row.status.Matured?
    ensures FinishDue(next, row.key).outcome.Ok?
  {
    var found := FindEvent(next.events, row.key).value;
    var i :| 0 <= i < |db.events| && db.events[i] == row;
    var j :| 0 <= j < |db.events| && db.events[j] == found;
  }
}
