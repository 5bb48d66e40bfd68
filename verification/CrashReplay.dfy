// Whole replays under crashes: every operation of every row may be stopped after any of its
// commits, any number of times, and called again; the replay ends in the same store, or raises
// the same error, as if nothing had happened.
module CrashReplay {
  import opened Common
  import opened RecoveryTables
  import opened Dispatcher
  import opened StoreLemmas
  import opened FinalSchedule
  import opened CrashSafety
  import opened CrashProcess
  import Refinement
  import ClosedForm
  import SC = SourceCompiler

  // Where the operations of one row are stopped: a list of stops for each call.
  datatype RowStops = RowStops(process: seq<nat>, ingest: seq<seq<nat>>, observe: seq<nat>)

  // A call stopped at each of these points and called again: the store it leaves, or its error.
  function CallUnderStops<T>(op: Db -> Run<T>, db: Db, stops: seq<nat>): Result<Db, StoreError> {
    match op(LastCall(op, db, stops)).outcome
    case Err(e) => Err(e)
    case Ok(_) => Ok(AfterStops(op, db, stops))
  }

  function IngestUnderStops(db: Db, events: seq<SourceEvent>, session: nat, sessionCount: nat, stops: seq<seq<nat>>):
    Result<Db, StoreError>
    decreases |events|
  {
    if events == [] then Ok(db)
    else
      var next :- CallUnderStops(d => Ingest(d, events[0], session, sessionCount), db, if stops == [] then [] else stops[0]);
      IngestUnderStops(next, events[1..], session, sessionCount, if stops == [] then [] else stops[1..])
  }

  function SessionUnderStops(
    db: Db, events: seq<SourceEvent>, session: nat, close: real, sessionCount: nat, stops: RowStops): Result<Db, StoreError>
  {
    var db1 :- CallUnderStops(d => Process(d, session, sessionCount), db, stops.process);
    var db2 :- IngestUnderStops(db1, EventsOn(events, session), session, sessionCount, stops.ingest);
    CallUnderStops(d => ObserveClose(d, session, close, sessionCount), db2, stops.observe)
  }

  function ReplayUnderStops(closes: seq<real>, events: seq<SourceEvent>, plan: nat -> RowStops, t: nat): Result<Db, StoreError>
    requires t <= |closes|
  {
    if t == 0 then Ok(InitialDb(0.0))
    else
      var db :- ReplayUnderStops(closes, events, plan, t - 1);
      SessionUnderStops(db, events, t - 1, closes[t - 1], |closes|, plan(t - 1))
  }

  // What a run leaves, when it returns.
  function Left<T>(db: Db, run: Run<T>): Result<Db, StoreError> {
    match run.outcome
    case Err(e) => Err(e)
    case Ok(_) => Ok(End(db, run.commits))
  }

  lemma CallIsLeft<T(!new)>(op: Db -> Run<T>, good: Db -> bool, db: Db, stops: seq<nat>)
    requires (forall d :: Resumes(op, good, d)) && good(db)
    ensures CallUnderStops(op, db, stops) == Left(db, op(db))
  {
    StopsDoNotMatter(op, good, db, stops);
  }

  lemma {:induction false} IngestsUnderStops(
    db: Db, events: seq<SourceEvent>, session: nat, sessionCount: nat, stops: seq<seq<nat>>)
    ensures IngestUnderStops(db, events, session, sessionCount, stops) == Left(db, IngestAll(db, events, session, sessionCount))
    decreases |events|
  {
    hide Ingest;
    if events != [] {
      var op := d => Ingest(d, events[0], session, sessionCount);
      var good := (_: Db) => true;
      forall d ensures Resumes(op, good, d) {
        IngestResumes(d, events[0], session, sessionCount);
      }
      CallIsLeft(op, good, db, if stops == [] then [] else stops[0]);
      var head := Ingest(db, events[0], session, sessionCount);
      var next := End(db, head.commits);
      IngestsUnderStops(next, events[1..], session, sessionCount, if stops == [] then [] else stops[1..]);
      EndAfter(db, head.commits, IngestAll(next, events[1..], session, sessionCount).commits);
    }
  }

  /* ---- Cycles start on the session of their signal ---- */

  ghost predicate StartsBefore(db: Db, t: nat) {
    forall i :: 0 <= i < |db.transitions| && db.transitions[i].key.StartKey? ==> db.transitions[i].key.session < t
  }

  // Nothing but ingest journals the start of a cycle.
  ghost predicate NoStart(db: Db, next: Db) {
    forall row :: row in next.transitions && row.key.StartKey? ==> row in db.transitions
  }

  lemma StillBefore(db: Db, next: Db, t: nat)
    requires StartsBefore(db, t) && NoStart(db, next)
    ensures StartsBefore(next, t)
  {
    forall i | 0 <= i < |next.transitions| && next.transitions[i].key.StartKey? ensures next.transitions[i].key.session < t {
      assert next.transitions[i] in db.transitions;
    }
  }

  lemma NoStartThen(db: Db, a: seq<Db>, b: seq<Db>)
    requires NoStart(db, End(db, a)) && NoStart(End(db, a), End(End(db, a), b))
    ensures NoStart(db, End(db, a + b))
  {
    EndAfter(db, a, b);
  }

  lemma TransitionNoStart(
    db: Db, key: TransitionKey, toPhase: Phase, reason: Reason, updates: Updates, payload: TransitionPayload)
    ensures var r := Transition(db, key, toPhase, reason, updates, payload);
            r.Ok? && (key.StartKey? ==> FindTransition(db.transitions, key).Some?) ==> NoStart(db, r.value)
  {
    hide ValidState, FindTransition, ApplyUpdates;
  }

  lemma StatusNoStart(db: Db, key: SourceKey, toStatus: EventStatus)
    ensures var r := SetStatus(db, key, toStatus); r.Ok? ==> NoStart(db, r.value)
  {
  }

  lemma {:induction false} CancelNoStart(db: Db, rows: seq<EventRow>, bound: Option<nat>, sessionCount: nat)
    ensures NoStart(db, End(db, CancelRows(db, rows, bound, sessionCount).commits))
    decreases |rows|
  {
    hide SetStatus, NoStart;
    NoStartSame(db);
    if rows != [] && !(bound.Some? && rows[0].maturity >= sessionCount) {
      if bound.Some? && rows[0].maturity < bound.value {
        CancelNoStart(db, rows[1..], bound, sessionCount);
      } else if SetStatus(db, rows[0].key, Cancelled).Ok? {
        var next := SetStatus(db, rows[0].key, Cancelled).value;
        StatusNoStart(db, rows[0].key, Cancelled);
        CancelNoStart(next, rows[1..], bound, sessionCount);
        NoStartThen(db, [next], CancelRows(next, rows[1..], bound, sessionCount).commits);
      }
    }
  }

  lemma NoStartSame(db: Db)
    ensures NoStart(db, db)
  {
  }

  lemma FinishNoStart(db: Db, key: SourceKey)
    ensures NoStart(db, End(db, FinishDue(db, key).commits))
  {
    hide SetStatus, NoStart;
    NoStartSame(db);
    StatusNoStart(db, key, Applied);
  }

  lemma MaturedNoStart(db: Db, row: EventRow, session: nat, sessionCount: nat)
    ensures NoStart(db, End(db, ApplyMatured(db, row, session, sessionCount).commits))
  {
    hide Transition, FinishDue, CancelRows, PendingEvents, NoStart;
    NoStartSame(db);
    var payload := ApplyPayload(row.key, row.maturity);
    var entry := Transition(db, ApplyKey(row.key), RecoveryActive, ApplyFirstEntry, EntryUpdates(row.target, session), payload);
    TransitionNoStart(db, ApplyKey(row.key), RecoveryActive, ApplyFirstEntry, EntryUpdates(row.target, session), payload);
    if entry.Ok? {
      var entered := entry.value;
      var bound := Some(session + FIXED_HOLD);
      NoStartSame(entered);
      CancelNoStart(entered, PendingEvents(entered, Some(row.cycleId)), bound, sessionCount);
      var cut := CancelOpen(entered, row.cycleId, bound, sessionCount);
      NoStartThen(db, [entered], cut.commits);
      FinishNoStart(End(entered, cut.commits), row.key);
      EndAfter(db, [entered], cut.commits);
      NoStartThen(db, [entered] + cut.commits, FinishDue(End(entered, cut.commits), row.key).commits);
    }
    var scale := Transition(db, ApplyKey(row.key), RecoveryActive, ApplyScaleUp, NO_UPDATES.(target := Set(row.target)), payload);
    TransitionNoStart(db, ApplyKey(row.key), RecoveryActive, ApplyScaleUp, NO_UPDATES.(target := Set(row.target)), payload);
    if scale.Ok? {
      FinishNoStart(scale.value, row.key);
      NoStartThen(db, [scale.value], FinishDue(scale.value, row.key).commits);
    }
  }

  lemma ResumeNoStart(db: Db, row: EventRow, session: nat, sessionCount: nat)
    ensures NoStart(db, End(db, ResumeOrApply(db, row, session, sessionCount).commits))
  {
    hide Transition, FinishDue, ApplyMatured, NoStart;
    NoStartSame(db);
    MaturedNoStart(db, row, session, sessionCount);
    var found := FindTransition(db.transitions, ApplyKey(row.key));
    if found.Some? {
      var r := found.value;
      TransitionNoStart(db, r.key, r.toPhase, r.reason, r.updates, r.payload);
      var same := Transition(db, r.key, r.toPhase, r.reason, r.updates, r.payload);
      if same.Ok? {
        FinishNoStart(same.value, row.key);
        NoStartThen(db, [same.value], FinishDue(same.value, row.key).commits);
      }
    }
  }

  lemma DueNoStart(db: Db, row: EventRow, session: nat, sessionCount: nat)
    ensures NoStart(db, End(db, ApplyDue(db, row, session, sessionCount).commits))
  {
    hide SetStatus, ResumeOrApply, NoStart;
    NoStartSame(db);
    ResumeNoStart(db, row, session, sessionCount);
    StatusNoStart(db, row.key, Matured);
    if SetStatus(db, row.key, Matured).Ok? {
      var matured := SetStatus(db, row.key, Matured).value;
      ResumeNoStart(matured, row, session, sessionCount);
      NoStartThen(db, [matured], ResumeOrApply(matured, row, session, sessionCount).commits);
    }
  }

  lemma {:induction false} ApplyAllNoStart(db: Db, due: seq<EventRow>, session: nat, sessionCount: nat)
    ensures NoStart(db, End(db, ApplyAll(db, due, session, sessionCount).commits))
    decreases |due|
  {
    hide ApplyDue, NoStart;
    NoStartSame(db);
    if due != [] {
      var head := ApplyDue(db, due[0], session, sessionCount);
      DueNoStart(db, due[0], session, sessionCount);
      ApplyAllNoStart(End(db, head.commits), due[1..], session, sessionCount);
      NoStartThen(db, head.commits, ApplyAll(End(db, head.commits), due[1..], session, sessionCount).commits);
    }
  }

  lemma RearmNoStart(db: Db)
    ensures NoStart(db, End(db, RearmIfReady(db).commits))
  {
    hide Transition, NoStart;
    NoStartSame(db);
    var s := db.state;
    TransitionNoStart(db, RearmAfterExitKey(CycleOf(s), if s.fixedExit.Some? then s.fixedExit.value else 0), Normal,
                      RearmAfterFixedExit, CLEAR_CYCLE, NoPayload);
  }

  lemma ExitNoStart(db: Db, exit: nat, sessionCount: nat)
    ensures NoStart(db, End(db, ProcessExit(db, exit, sessionCount).commits))
  {
    hide Transition, NoStart, RearmIfReady, CancelRows, PendingEvents;
    NoStartSame(db);
    var cut := CancelOpen(db, CycleOf(db.state), None, sessionCount);
    CancelNoStart(db, PendingEvents(db, Some(CycleOf(db.state))), None, sessionCount);
    if cut.outcome.Ok? {
      var cleared := End(db, cut.commits);
      NoStartSame(cleared);
      TransitionNoStart(cleared, FixedExitKey(CycleOf(cleared.state), exit), OldAthGuard, H378FixedExit, NO_UPDATES.(target := Set(0)), NoPayload);
      var exited := Transition(cleared, FixedExitKey(CycleOf(cleared.state), exit), OldAthGuard, H378FixedExit, NO_UPDATES.(target := Set(0)), NoPayload);
      if exited.Ok? {
        RearmNoStart(exited.value);
        NoStartThen(cleared, [exited.value], RearmIfReady(exited.value).commits);
      }
      NoStartThen(db, cut.commits, ExitAndRearm(cleared, exit).commits);
    }
  }

  lemma ProcessNoStart(db: Db, session: nat, sessionCount: nat)
    ensures NoStart(db, End(db, Process(db, session, sessionCount).commits))
  {
    hide NoStart, RearmIfReady, ProcessExit, ApplyAll, DueRows, PendingEvents, ValidState;
    NoStartSame(db);
    RearmNoStart(db);
    ExitNoStart(db, session, sessionCount);
    var due := DueRows(PendingEvents(db, Some(CycleOf(db.state))), session, sessionCount);
    if due.Ok? {
      ApplyAllNoStart(db, due.value, session, sessionCount);
    }
  }

  lemma ObserveNoStart(db: Db, session: nat, close: real, sessionCount: nat)
    ensures NoStart(db, End(db, ObserveClose(db, session, close, sessionCount).commits))
  {
    hide NoStart, Transition, CancelRows, PendingEvents;
    NoStartSame(db);
    var s := db.state;
    var id := CycleOf(s);
    TransitionNoStart(db, RecoveredKey(id, session), RecoveryActive, OldAthWhileActive, NO_UPDATES.(recovered := Set(true)), NoPayload);
    TransitionNoStart(db, RearmKey(id, session), Normal, RearmAfterOldAth, CLEAR_CYCLE, NoPayload);
    CancelNoStart(db, PendingEvents(db, Some(id)), None, sessionCount);
    var cut := CancelOpen(db, id, None, sessionCount);
    var cleared := End(db, cut.commits);
    NoStartSame(cleared);
    TransitionNoStart(cleared, CancelKey(id, session), Normal, OldAthBeforeFirstEntry, CLEAR_CYCLE, NoPayload);
    NoStartThen(db, cut.commits,
                CloseTransition(cleared, CancelKey(id, session), Normal, OldAthBeforeFirstEntry, CLEAR_CYCLE, CancelledBeforeFirstEntry).commits);
  }

  /* ---- Stores between the operations of a row ---- */

  // Before the signals of session t, or between two of them: starts of that very session belong to
  // the cycle that is live.
  ghost predicate Ingesting(db: Db, t: nat) {
    && Orderly(db, t + 1) && StartsBefore(db, t + 1)
    && (db.state.phase.Normal? ==> StartsBefore(db, t))
  }

  lemma OrderlyLater(db: Db, t: nat)
    requires Orderly(db, t)
    ensures Orderly(db, t + 1)
  {
  }

  lemma Queued(db: Db, e: SourceEvent, t: nat) returns (queued: Db, row: EventRow)
    requires Ingesting(db, t) && Enqueue(db, RowOf(e)).Ok?
    ensures Enqueue(db, RowOf(e)) == Ok((queued, row))
    ensures queued == db.(events := queued.events)
    ensures row.key == KeyOf(e) && row in queued.events && row.(status := Pending) == RowOf(e)
    ensures queued == db || queued.events == db.events + [RowOf(e)]
    ensures UniqueKeys(queued.events) && FindEvent(queued.events, KeyOf(e)) == Some(row)
  {
    var (d, stored) := Enqueue(db, RowOf(e)).value;
    queued, row := d, stored;
    EnqueueTwice(db, RowOf(e));
  }

  // An event either fits the live cycle, or starts one in a store where nothing is open.
  lemma JoinKeeps(db: Db, queued: Db, e: SourceEvent, t: nat, sessionCount: nat)
    requires Ingesting(db, t) && e.signal == t && e.execution == t + 1
    requires queued == db.(events := queued.events) && UniqueKeys(queued.events)
    requires queued == db || queued.events == db.events + [RowOf(e)]
    requires FindEvent(queued.events, KeyOf(e)).Some? && Open(FindEvent(queued.events, KeyOf(e)).value)
    requires FindEvent(queued.events, KeyOf(e)).value.cycleId == e.cycleId
    requires JoinCycle(queued, e, sessionCount).outcome.Ok?
    ensures Ingesting(End(queued, JoinCycle(queued, e, sessionCount).commits), t)
  {
    hide ValidState, SetStatus, FindTransition;
    var row := FindEvent(queued.events, KeyOf(e)).value;
    if db.state.phase.Normal? {
      assert queued != db;
      JoinTwice(queued, e, sessionCount);
      StartedKeeps(db, queued, e, t, sessionCount);
    } else {
      LiveKeeps(db, queued, e, t);
      SettleKeeps(queued, e, t, sessionCount);
    }
  }

  lemma StartedKeeps(db: Db, queued: Db, e: SourceEvent, t: nat, sessionCount: nat)
    requires Ingesting(db, t) && e.signal == t && e.execution == t + 1 && db.state.phase.Normal?
    requires queued == db.(events := db.events + [RowOf(e)]) && UniqueKeys(queued.events)
    requires JoinCycle(queued, e, sessionCount).outcome.Ok? && |JoinCycle(queued, e, sessionCount).commits| == 1
    ensures Ingesting(JoinCycle(queued, e, sessionCount).commits[0], t)
  {
    hide ValidState, UniqueKeys;
    assert FindTransition(queued.transitions, StartKey(e.cycleId, e.signal)).None? by {
      NotYetStarted(db, e.cycleId, t);
    }
    var next := JoinCycle(queued, e, sessionCount).commits[0];
    assert next.events == queued.events && next.state.cycleId == Some(e.cycleId) && next.state.phase.WaitD40?;
    forall row | row in next.events && Open(row) ensures row == RowOf(e) {
      assert row in db.events || row == RowOf(e);
    }
    forall i | 0 <= i < |next.transitions| && next.transitions[i].key.StartKey? ensures next.transitions[i].key.session < t + 1 {
      assert i < |db.transitions| ==> next.transitions[i] == db.transitions[i];
    }
  }

  lemma NotYetStarted(db: Db, cycleId: nat, t: nat)
    requires StartsBefore(db, t)
    ensures FindTransition(db.transitions, StartKey(cycleId, t)).None?
  {
    assert forall i :: 0 <= i < |db.transitions| ==> db.transitions[i].key != StartKey(cycleId, t);
  }

  lemma LiveKeeps(db: Db, queued: Db, e: SourceEvent, t: nat)
    requires Ingesting(db, t) && e.execution == t + 1 && (db.state.phase.WaitD40? || db.state.phase.RecoveryActive?)
    requires queued.state == db.state && queued.transitions == db.transitions && UniqueKeys(queued.events)
    requires (queued == db || queued.events == db.events + [RowOf(e)]) && db.state.cycleId == Some(e.cycleId)
    ensures Ingesting(queued, t)
  {
    forall row | row in queued.events && Open(row)
      ensures queued.state.cycleId == Some(row.cycleId) && row.maturity <= t + 1 + ENTRY_DELAY
    {
      assert row in db.events || row == RowOf(e);
    }
  }

  lemma SettleKeeps(db: Db, e: SourceEvent, t: nat, sessionCount: nat)
    requires Ingesting(db, t)
    ensures Ingesting(End(db, Settle(db, e, sessionCount).commits), t)
  {
    var r := SetStatus(db, KeyOf(e), Cancelled);
    if r.Ok? {
      CancelledKeeps(db, KeyOf(e), t);
    }
  }

  lemma CancelledKeeps(db: Db, key: SourceKey, t: nat)
    requires Ingesting(db, t) && SetStatus(db, key, Cancelled).Ok?
    ensures Ingesting(SetStatus(db, key, Cancelled).value, t)
  {
    var next := SetStatus(db, key, Cancelled).value;
    UniqueAfterStatus(db.events, key, Cancelled);
    forall row | row in next.events && Open(row) ensures row in db.events {
      var i :| 0 <= i < |next.events| && next.events[i] == row;
      assert db.events[i] in db.events;
    }
  }

  lemma IngestKeeps(db: Db, e: SourceEvent, t: nat, sessionCount: nat)
    requires Ingesting(db, t) && Ingest(db, e, t, sessionCount).outcome.Ok?
    ensures Ingesting(End(db, Ingest(db, e, t, sessionCount).commits), t)
  {
    hide JoinCycle, Enqueue, Ingesting, FindEvent, UniqueKeys;
    if e.kind.EntryOrScale? {
      var queued, row := Queued(db, e, t);
      if row.status.Applied? || row.status.Cancelled? {
        SettledRow(db, queued, e);
      } else {
        EndAfter(db, [queued], JoinCycle(queued, e, sessionCount).commits);
        JoinKeeps(db, queued, e, t, sessionCount);
      }
    }
  }

  // A row that is settled was there before.
  lemma SettledRow(db: Db, queued: Db, e: SourceEvent)
    requires Enqueue(db, RowOf(e)).Ok? && Enqueue(db, RowOf(e)).value.0 == queued
    requires Enqueue(db, RowOf(e)).value.1.status.Applied? || Enqueue(db, RowOf(e)).value.1.status.Cancelled?
    ensures queued == db
  {
  }

  lemma {:induction false} IngestAllKeeps(db: Db, events: seq<SourceEvent>, t: nat, sessionCount: nat)
    requires Ingesting(db, t) && IngestAll(db, events, t, sessionCount).outcome.Ok?
    ensures Ingesting(End(db, IngestAll(db, events, t, sessionCount).commits), t)
    decreases |events|
  {
    hide Ingest, Ingesting;
    if events != [] {
      var head := Ingest(db, events[0], t, sessionCount);
      var next := End(db, head.commits);
      IngestKeeps(db, events[0], t, sessionCount);
      IngestAllKeeps(next, events[1..], t, sessionCount);
      EndAfter(db, head.commits, IngestAll(next, events[1..], t, sessionCount).commits);
    }
  }

  lemma ObserveKeeps(db: Db, t: nat, close: real, sessionCount: nat)
    requires Orderly(db, t + 1) && ObserveClose(db, t, close, sessionCount).outcome.Ok?
    ensures Orderly(End(db, ObserveClose(db, t, close, sessionCount).commits), t + 1)
  {
    hide CancelOpen, Transition, UniqueKeys, CancelCycle, PartlyCancelled;
    var run, id, s := ObserveClose(db, t, close, sessionCount), CycleOf(db.state), db.state;
    OrderlyKeys(db, t + 1);
    if run.commits != [] {
      if s.phase.WaitD40? {
        CancellingClose(db, t, close, sessionCount);
        var cleared := Cleared(db);
        NothingLeft(db.events, id);
        CutAgain(db.events, cleared.events, id);
        ClearedIsQuiet(db, t + 1);
        ClosedOrderly(cleared, CancelKey(id, t), OldAthBeforeFirstEntry, t + 1);
      } else if s.phase.RecoveryActive? {
        RecoveredOrderly(db, RecoveredKey(id, t), t + 1);
      } else {
        NothingOpenInGuard(db, t + 1);
        ClosedOrderly(db, RearmKey(id, t), RearmAfterOldAth, t + 1);
      }
    }
  }

  // A return to NORMAL with nothing open, or its replay.
  lemma ClosedOrderly(db: Db, key: TransitionKey, reason: Reason, session: nat)
    requires NoneOpen(db) && UniqueKeys(db.events) && (db.state.cycleId.None? ==> db.state.phase.Normal?)
    requires Transition(db, key, Normal, reason, CLEAR_CYCLE, NoPayload).Ok?
    ensures Orderly(Transition(db, key, Normal, reason, CLEAR_CYCLE, NoPayload).value, session)
  {
    hide UniqueKeys, ValidState;
  }

  lemma RecoveredOrderly(db: Db, key: TransitionKey, session: nat)
    requires Orderly(db, session) && db.state.phase.RecoveryActive?
    requires Transition(db, key, RecoveryActive, OldAthWhileActive, NO_UPDATES.(recovered := Set(true)), NoPayload).Ok?
    ensures Orderly(Transition(db, key, RecoveryActive, OldAthWhileActive, NO_UPDATES.(recovered := Set(true)), NoPayload).value, session)
  {
    hide UniqueKeys, ValidState;
  }

  // A call of process_execution_session leaves an orderly store: it resumes from its own end.
  lemma ProcessKeeps(db: Db, t: nat, sessionCount: nat)
    requires Orderly(db, t)
    ensures Orderly(End(db, Process(db, t, sessionCount).commits), t)
  {
    hide Orderly, Process;
    var run := Process(db, t, sessionCount);
    ProcessAgain(db, t, sessionCount, |run.commits|);
    assert run.commits[..|run.commits|] == run.commits;
  }

  /* ---- Whole replays ---- */

  lemma SessionSafe(db: Db, events: seq<SourceEvent>, t: nat, close: real, sessionCount: nat, stops: RowStops)
    requires Orderly(db, t) && StartsBefore(db, t)
    ensures SessionUnderStops(db, events, t, close, sessionCount, stops) == Left(db, Session(db, events, t, close, sessionCount))
    ensures var run := Session(db, events, t, close, sessionCount);
            run.outcome.Ok? ==> Orderly(End(db, run.commits), t + 1) && StartsBefore(End(db, run.commits), t + 1)
  {
    hide Process, IngestAll, IngestUnderStops, ObserveClose, Orderly, Keyed, Resumes, StartsBefore, CallUnderStops;
    var process, orderly := d => Process(d, t, sessionCount), d => Orderly(d, t);
    forall d ensures Resumes(process, orderly, d) { ProcessResumes(d, t, sessionCount); }
    CallIsLeft(process, orderly, db, stops.process);
    ProcessKeeps(db, t, sessionCount);
    ProcessNoStart(db, t, sessionCount);
    if Process(db, t, sessionCount).outcome.Ok? {
      var commits1 := Process(db, t, sessionCount).commits;
      var db1 := End(db, commits1);
      StillBefore(db, db1, t);
      SignalsNext(db1, t);
      IngestsUnderStops(db1, EventsOn(events, t), t, sessionCount, stops.ingest);
      if IngestAll(db1, EventsOn(events, t), t, sessionCount).outcome.Ok? {
        IngestAllKeeps(db1, EventsOn(events, t), t, sessionCount);
        var commits2 := IngestAll(db1, EventsOn(events, t), t, sessionCount).commits;
        var db2 := End(db1, commits2);
        SignalsDone(db2, t);
        var observe, keyed := d => ObserveClose(d, t, close, sessionCount), d => Keyed(d);
        forall d ensures Resumes(observe, keyed, d) { ObserveResumes(d, t, close, sessionCount); }
        CallIsLeft(observe, keyed, db2, stops.observe);
        ObserveNoStart(db2, t, close, sessionCount);
        var commits3 := ObserveClose(db2, t, close, sessionCount).commits;
        StillBefore(db2, End(db2, commits3), t + 1);
        if ObserveClose(db2, t, close, sessionCount).outcome.Ok? {
          ObserveKeeps(db2, t, close, sessionCount);
        }
        EndAfter(db, commits1, commits2);
        EndAfter(db, commits1 + commits2, commits3);
      }
    }
  }

  lemma SignalsNext(db: Db, t: nat)
    requires Orderly(db, t) && StartsBefore(db, t)
    ensures Ingesting(db, t)
  {
    OrderlyLater(db, t);
  }

  lemma SignalsDone(db: Db, t: nat)
    requires Ingesting(db, t)
    ensures Orderly(db, t + 1) && StartsBefore(db, t + 1) && Keyed(db)
  {
  }

  lemma StartsOrderly()
    ensures Orderly(InitialDb(0.0), 0) && StartsBefore(InitialDb(0.0), 0)
  {
  }

  // Crashes change nothing: any history and any source events, any stops of any call of any row,
  // replays that return and replays that raise.
  lemma {:induction false} CrashesChangeNothing(closes: seq<real>, events: seq<SourceEvent>, plan: nat -> RowStops, t: nat)
    requires t <= |closes|
    ensures ReplayUnderStops(closes, events, plan, t) == ReplayTo(closes, events, t)
    ensures ReplayTo(closes, events, t).Ok? ==>
              Orderly(ReplayTo(closes, events, t).value, t) && StartsBefore(ReplayTo(closes, events, t).value, t)
  {
    hide Session, SessionUnderStops, Orderly, StartsBefore;
    if t == 0 {
      StartsOrderly();
    } else {
      CrashesChangeNothing(closes, events, plan, t - 1);
      if ReplayTo(closes, events, t - 1).Ok? {
        SessionSafe(ReplayTo(closes, events, t - 1).value, events, t - 1, closes[t - 1], |closes|, plan(t - 1));
      }
    }
  }

  // With the refinement: a history that meets the price conditions and replays executes the batch
  // schedule under any stops.
  lemma CrashedReplayIsSchedule(closes: seq<real>, plan: nat -> RowStops)
    requires SC.SourceCycles(closes).Ok? && Replay(closes).Ok?
    requires Refinement.NoPeakInCrash(SC.SourceCycles(closes).value, closes) && Refinement.NoNearMiss(SC.SourceCycles(closes).value, closes)
    ensures Schedule(closes).Ok?
    ensures var r := ReplayUnderStops(closes, AllEvents(SC.SourceCycles(closes).value), plan, |closes|);
            r.Ok? && ClosedForm.TradesIn(r.value.transitions) == TradesOf(Schedule(closes).value)
  {
    hide SC.SourceCycles, ReplayTo, ReplayUnderStops, Schedule, Refinement.NoPeakInCrash, Refinement.NoNearMiss, Refinement.SignalsBeforeExit;
    Refinement.OnlineIsBatch(closes);
    CrashesChangeNothing(closes, AllEvents(SC.SourceCycles(closes).value), plan, |closes|);
  }
}
