// The operations of src/sp1execution/recovery/durable_dispatcher_v01.py on a RecoveryStore,
// step by step.  Each does exactly the commits of its run, in order, and returns its outcome.
module DurableDispatcher {
  import opened Common
  import opened RecoveryTables
  import opened Dispatcher
  import StoreLemmas
  import Robust
  import SC = SourceCompiler
  import FS = FinalSchedule

  ghost predicate Ran<T>(
    was: Db, wasCommits: seq<Db>, now: Db, nowCommits: seq<Db>, run: Run<T>, outcome: Result<T, StoreError>)
  {
    && now == End(was, run.commits)
    && nowCommits == wasCommits + run.commits
    && outcome == run.outcome
  }

  lemma RanMore(was: Db, wasCommits: seq<Db>, a: seq<Db>, b: seq<Db>)
    ensures End(was, a + b) == End(End(was, a), b)
    ensures wasCommits + a + b == wasCommits + (a + b)
  {
    StoreLemmas.EndAfter(was, a, b);
  }

  lemma AfterAfter<T>(a: seq<Db>, b: seq<Db>, rest: Run<T>)
    ensures After(a, After(b, rest)) == After(a + b, rest)
  {
    assert a + (b + rest.commits) == (a + b) + rest.commits;
  }

  lemma CancelFirst(db: Db, rows: seq<EventRow>, bound: Option<nat>, sessionCount: nat)
    ensures CancelRows(db, rows, bound, sessionCount) ==
            if rows == [] then Run([], Ok(()))
            else if bound.Some? && rows[0].maturity >= sessionCount then Run([], Err(SessionAbsent))
            else if bound.Some? && rows[0].maturity < bound.value then CancelRows(db, rows[1..], bound, sessionCount)
            else if SetStatus(db, rows[0].key, Cancelled).Err? then Run([], Err(SetStatus(db, rows[0].key, Cancelled).error))
            else var next := SetStatus(db, rows[0].key, Cancelled).value;
                 After([next], CancelRows(next, rows[1..], bound, sessionCount))
  {
    hide SetStatus;
  }

  method CancelOpenEvents(store: RecoveryStore, cycleId: nat, bound: Option<nat>, sessionCount: nat)
    returns (r: Result<(), StoreError>)
    modifies store
    ensures Ran(old(store.View()), old(store.commits), store.View(), store.commits,
                CancelOpen(old(store.View()), cycleId, bound, sessionCount), r)
  {
    hide SetStatus, PendingEvents, CancelRows;
    if bound.Some? && bound.value >= sessionCount {
      return Err(SessionAbsent);
    }
    var rows := store.LoadPendingEvents(Some(cycleId));
    ghost var was, wasCommits, all := store.View(), store.commits, rows;
    ghost var done: seq<Db> := [];
    while rows != []
      invariant store.View() == End(was, done) && store.commits == wasCommits + done
      invariant CancelRows(was, all, bound, sessionCount) == After(done, CancelRows(store.View(), rows, bound, sessionCount))
      decreases |rows|
    {
      CancelFirst(store.View(), rows, bound, sessionCount);
      assert done + [] == done;
      var row := rows[0];
      if bound.Some? && row.maturity >= sessionCount {
        return Err(SessionAbsent);
      }
      if !(bound.Some? && row.maturity < bound.value) {
        var error := store.SetDelayedEventStatus(row.key, Cancelled);
        if error.Some? {
          return Err(error.value);
        }
        ghost var next := store.View();
        RanMore(was, wasCommits, done, [next]);
        AfterAfter(done, [next], CancelRows(next, rows[1..], bound, sessionCount));
        done := done + [next];
      }
      rows := rows[1..];
    }
    CancelFirst(store.View(), rows, bound, sessionCount);
    assert done + [] == done;
    return Ok(());
  }

  method IngestSourceEvent(store: RecoveryStore, e: SourceEvent, observed: nat, sessionCount: nat)
    returns (r: Result<SourceStatus, StoreError>)
    modifies store
    ensures Ran(old(store.View()), old(store.commits), store.View(), store.commits,
                Ingest(old(store.View()), e, observed, sessionCount), r)
  {
    hide SetStatus, Transition, Enqueue;
    if observed != e.signal {
      return Err(NotOnSignalSession);
    }
    if e.signal >= sessionCount {
      return Err(SessionAbsent);
    }
    if e.signal + 1 >= sessionCount {
      return Err(CalendarEnds);
    }
    if e.execution != e.signal + 1 {
      return Err(NotTPlusOne);
    }
    if e.kind.HandoffEvent? {
      return Ok(IgnoredHandoff);
    }
    if !Robust.FrozenTarget(e.target) || e.target <= 0 {
      return Err(NonFrozenTarget);
    }
    if e.execution + FS.ENTRY_DELAY >= sessionCount {
      return Err(CalendarEnds);
    }
    // persist first, so that a crash before the cycle starts is repaired by ingesting again
    ghost var was, wasCommits := store.View(), store.commits;
    var durable := store.EnqueueDelayedEvent(RowOf(e));
    if durable.Err? {
      return Err(durable.error);
    }
    ghost var queued := store.View();
    if durable.value.status.Applied? || durable.value.status.Cancelled? {
      return Ok(AlreadyRecorded);
    }
    RanMore(was, wasCommits, [queued], JoinCycle(queued, e, sessionCount).commits);
    r := JoinOrStart(store, e, sessionCount);
  }

  method JoinOrStart(store: RecoveryStore, e: SourceEvent, sessionCount: nat) returns (r: Result<SourceStatus, StoreError>)
    modifies store
    ensures Ran(old(store.View()), old(store.commits), store.View(), store.commits,
                JoinCycle(old(store.View()), e, sessionCount), r)
  {
    hide SetStatus, Transition;
    ghost var was, wasCommits := store.View(), store.commits;
    ghost var start: seq<Db> := [];
    var s := store.state;
    match s.phase {
      case Normal =>
        var error := store.TransitionState(StartKey(e.cycleId, e.signal), WaitD40, StartSourceCycle, StartUpdates(e),
                                           StartPayload(KeyOf(e), e.oldAthDate));
        if error.Some? {
          return Err(error.value);
        }
        start := [store.View()];
      case OldAthGuard =>
        return Err(BeforeGuardRelease);
      case _ =>
        if s.cycleId != Some(e.cycleId) {
          return Err(CycleOverlap);
        }
        if s.oldAth.None? || Abs(s.oldAth.value - e.oldAth) > TOL {
          return Err(OldAthDiffers);
        }
    }
    RanMore(was, wasCommits, start, Settle(store.View(), e, sessionCount).commits);
    if store.state.phase.RecoveryActive? {
      if store.state.fixedExit.None? || store.state.fixedExit.value >= sessionCount {
        return Err(SessionAbsent);
      }
      if RowOf(e).maturity >= store.state.fixedExit.value {
        var error := store.SetDelayedEventStatus(KeyOf(e), Cancelled);
        if error.Some? {
          return Err(error.value);
        }
        return Ok(CancelledOutsideH378);
      }
    }
    return Ok(StillPending);
  }

  // The journal is the authority on whether a due event was already applied.
  method ResumeTransitionThenApply(store: RecoveryStore, key: SourceKey) returns (resumed: bool, r: Result<(), StoreError>)
    modifies store
    ensures resumed <==> FindTransition(old(store.View()).transitions, ApplyKey(key)).Some?
    ensures !resumed ==> store.View() == old(store.View()) && store.commits == old(store.commits)
    ensures resumed ==> forall row: EventRow, session: nat, sessionCount: nat :: row.key == key ==>
              Ran(old(store.View()), old(store.commits), store.View(), store.commits,
                  ResumeOrApply(old(store.View()), row, session, sessionCount), r)
  {
    hide SetStatus, Transition, ApplyMatured;
    ghost var was, wasCommits := store.View(), store.commits;
    var recorded := store.LookUpTransition(ApplyKey(key));
    if recorded.None? {
      return false, Ok(());
    }
    var row := recorded.value;
    var error := store.TransitionState(row.key, row.toPhase, row.reason, row.updates, row.payload);
    if error.Some? {
      return true, Err(error.value);
    }
    ghost var same := store.View();
    RanMore(was, wasCommits, [same], FinishDue(same, key).commits);
    error := store.SetDelayedEventStatus(key, Applied);
    if error.Some? {
      return true, Err(error.value);
    }
    return true, Ok(());
  }

  method ApplyEconomicTransition(store: RecoveryStore, row: EventRow, session: nat, sessionCount: nat)
    returns (r: Result<(), StoreError>)
    modifies store
    ensures Ran(old(store.View()), old(store.commits), store.View(), store.commits,
                ApplyMatured(old(store.View()), row, session, sessionCount), r)
  {
    hide SetStatus, Transition, CancelOpen;
    ghost var was, wasCommits := store.View(), store.commits;
    ghost var done: seq<Db> := [];
    var s := store.state;
    var payload := ApplyPayload(row.key, row.maturity);
    if s.cycleId != Some(row.cycleId) {
      return Err(DueCycleMismatch);
    }
    if !Robust.FrozenTarget(row.target) {
      return Err(NonFrozenTarget);
    }
    if s.phase.WaitD40? {
      if session + FS.FIXED_HOLD >= sessionCount {
        return Err(CalendarEnds);
      }
      var error := store.TransitionState(ApplyKey(row.key), RecoveryActive, ApplyFirstEntry, EntryUpdates(row.target, session), payload);
      if error.Some? {
        return Err(error.value);
      }
      ghost var entered := store.View();
      ghost var cut := CancelOpen(entered, row.cycleId, Some(session + FS.FIXED_HOLD), sessionCount);
      RanMore(was, wasCommits, [entered], cut.commits);
      var cancelled := CancelOpenEvents(store, row.cycleId, Some(session + FS.FIXED_HOLD), sessionCount);
      if cancelled.Err? {
        return cancelled;
      }
      done := [entered] + cut.commits;
    } else if s.phase.RecoveryActive? {
      if s.fixedExit.None? || s.fixedExit.value >= sessionCount {
        return Err(SessionAbsent);
      }
      if session >= s.fixedExit.value {
        return Err(ScaleAfterExit);
      }
      if row.target <= s.target {
        return Err(ScaleMustIncrease);
      }
      var error := store.TransitionState(ApplyKey(row.key), RecoveryActive, ApplyScaleUp, NO_UPDATES.(target := Set(row.target)), payload);
      if error.Some? {
        return Err(error.value);
      }
      done := [store.View()];
    } else {
      return Err(NotApplicable);
    }
    ghost var applied := store.View();
    RanMore(was, wasCommits, done, FinishDue(applied, row.key).commits);
    var error := store.SetDelayedEventStatus(row.key, Applied);
    if error.Some? {
      return Err(error.value);
    }
    return Ok(());
  }

  method ApplyDueEvent(store: RecoveryStore, row: EventRow, session: nat, sessionCount: nat) returns (r: Result<(), StoreError>)
    modifies store
    ensures Ran(old(store.View()), old(store.commits), store.View(), store.commits,
                ApplyDue(old(store.View()), row, session, sessionCount), r)
  {
    hide SetStatus, Transition, ApplyMatured;
    ghost var was, wasCommits := store.View(), store.commits;
    ghost var done: seq<Db> := [];
    if row.status.Pending? {
      var error := store.SetDelayedEventStatus(row.key, Matured);
      if error.Some? {
        return Err(error.value);
      }
      done := [store.View()];
    } else if !row.status.Matured? {
      return Err(InvalidDueStatus);
    }
    RanMore(was, wasCommits, done, ResumeOrApply(store.View(), row, session, sessionCount).commits);
    var resumed;
    resumed, r := ResumeTransitionThenApply(store, row.key);
    if !resumed {
      r := ApplyEconomicTransition(store, row, session, sessionCount);
    }
  }

  method RearmAfterFixedExitIfReady(store: RecoveryStore) returns (r: Result<bool, StoreError>)
    modifies store
    ensures Ran(old(store.View()), old(store.commits), store.View(), store.commits, RearmIfReady(old(store.View())), r)
  {
    hide Transition;
    var s := store.state;
    if !s.phase.OldAthGuard? || !s.recovered {
      return Ok(false);
    }
    var error := store.TransitionState(RearmAfterExitKey(CycleOf(s), if s.fixedExit.Some? then s.fixedExit.value else 0),
                                       Normal, RearmAfterFixedExit, CLEAR_CYCLE, NoPayload);
    if error.Some? {
      return Err(error.value);
    }
    return Ok(true);
  }

  method ApplyDueEvents(store: RecoveryStore, session: nat, sessionCount: nat) returns (r: Result<SessionResult, StoreError>)
    modifies store
    ensures Ran(old(store.View()), old(store.commits), store.View(), store.commits,
                ProcessDue(old(store.View()), session, sessionCount), r)
  {
    hide PendingEvents, ApplyDue, ApplyAll, ValidState;
    ghost var was, wasCommits := store.View(), store.commits;
    var rows := store.LoadPendingEvents(Some(CycleOf(store.state)));
    var due := CollectDue(rows, session, sessionCount);
    if due.Err? {
      return Err(due.error);
    }
    var todo, applied := due.value, [];
    ghost var done: seq<Db> := [];
    while todo != []
      invariant store.View() == End(was, done) && store.commits == wasCommits + done
      invariant ApplyAll(was, due.value, session, sessionCount) == After(done, ApplyAll(store.View(), todo, session, sessionCount))
      invariant |applied| + |todo| == |due.value| && todo == due.value[|applied|..]
      invariant applied == Keys(due.value[..|applied|])
      decreases |todo|
    {
      ghost var before := store.View();
      ghost var head := ApplyDue(before, todo[0], session, sessionCount);
      ApplyFirst(before, todo, session, sessionCount);
      RanMore(was, wasCommits, done, head.commits);
      var one := ApplyDueEvent(store, todo[0], session, sessionCount);
      if one.Err? {
        return Err(one.error);
      }
      AfterAfter(done, head.commits, ApplyAll(store.View(), todo[1..], session, sessionCount));
      done := done + head.commits;
      KeysSnoc(due.value, |applied|);
      applied := applied + [todo[0].key];
      todo := todo[1..];
    }
    ApplyFirst(store.View(), todo, session, sessionCount);
    assert done + [] == done;
    assert due.value[..|applied|] == due.value;
    if !ValidState(store.state) {
      return Err(InvalidState);
    }
    return Ok(SessionResult(applied, false, false));
  }

  lemma ApplyFirst(db: Db, due: seq<EventRow>, session: nat, sessionCount: nat)
    ensures ApplyAll(db, due, session, sessionCount) ==
            if due == [] then Run([], Ok(()))
            else var head := ApplyDue(db, due[0], session, sessionCount);
                 if head.outcome.Err? then head
                 else After(head.commits, ApplyAll(End(db, head.commits), due[1..], session, sessionCount))
  {
    hide ApplyDue;
  }

  lemma KeysSnoc(rows: seq<EventRow>, i: nat)
    requires i < |rows|
    ensures Keys(rows[..i + 1]) == Keys(rows[..i]) + [rows[i].key]
  {
  }

  method CollectDue(rows: seq<EventRow>, session: nat, sessionCount: nat) returns (r: Result<seq<EventRow>, StoreError>)
    ensures r == DueRows(rows, session, sessionCount)
  {
    var due: seq<EventRow> := [];
    for i := 0 to |rows|
      invariant DueRows(rows[..i], session, sessionCount) == Ok(due)
    {
      assert DropLast(rows[..i + 1]) == rows[..i];
      var row := rows[i];
      if row.maturity >= sessionCount {
        DueErrorStays(rows, session, sessionCount, i + 1, |rows|);
        assert rows[..|rows|] == rows;
        return Err(SessionAbsent);
      }
      if row.maturity < session {
        DueErrorStays(rows, session, sessionCount, i + 1, |rows|);
        assert rows[..|rows|] == rows;
        return Err(MaturityMissed);
      }
      due := due + if row.maturity == session then [row] else [];
    }
    assert rows[..|rows|] == rows;
    return Ok(due);
  }

  lemma {:induction false} DueErrorStays(rows: seq<EventRow>, session: nat, sessionCount: nat, i: nat, j: nat)
    requires i <= j <= |rows| && DueRows(rows[..i], session, sessionCount).Err?
    ensures DueRows(rows[..j], session, sessionCount) == DueRows(rows[..i], session, sessionCount)
    decreases j
  {
    if i < j {
      DueErrorStays(rows, session, sessionCount, i, j - 1);
      assert DropLast(rows[..j]) == rows[..j - 1];
    }
  }

  method ApplyFixedExit(store: RecoveryStore, exit: nat, sessionCount: nat) returns (r: Result<SessionResult, StoreError>)
    modifies store
    ensures Ran(old(store.View()), old(store.commits), store.View(), store.commits,
                ProcessExit(old(store.View()), exit, sessionCount), r)
  {
    hide Transition, CancelOpen, RearmIfReady;
    ghost var was, wasCommits := store.View(), store.commits;
    var cut := CancelOpenEvents(store, CycleOf(store.state), None, sessionCount);
    if cut.Err? {
      return Err(cut.error);
    }
    ghost var cutCommits := CancelOpen(was, CycleOf(was.state), None, sessionCount).commits;
    ghost var cleared := store.View();
    RanMore(was, wasCommits, cutCommits, ExitAndRearm(cleared, exit).commits);
    var error := store.TransitionState(FixedExitKey(CycleOf(store.state), exit), OldAthGuard, H378FixedExit,
                                       NO_UPDATES.(target := Set(0)), NoPayload);
    if error.Some? {
      return Err(error.value);
    }
    ghost var exited := store.View();
    RanMore(cleared, wasCommits + cutCommits, [exited], RearmIfReady(exited).commits);
    var rearmed := RearmAfterFixedExitIfReady(store);
    if rearmed.Err? {
      return Err(rearmed.error);
    }
    return Ok(SessionResult([], true, rearmed.value));
  }

  method ProcessExecutionSession(store: RecoveryStore, session: nat, sessionCount: nat)
    returns (r: Result<SessionResult, StoreError>)
    modifies store
    ensures Ran(old(store.View()), old(store.commits), store.View(), store.commits,
                Process(old(store.View()), session, sessionCount), r)
  {
    hide ProcessExit, ProcessDue, PendingEvents, RearmIfReady;
    if session >= sessionCount {
      return Err(SessionAbsent);
    }
    var s := store.state;
    if s.phase.OldAthGuard? {
      var rearmed := RearmAfterFixedExitIfReady(store);
      if rearmed.Err? {
        return Err(rearmed.error);
      }
      return Ok(SessionResult([], false, rearmed.value));
    }
    if s.phase.RecoveryActive? {
      if s.fixedExit.None? || s.fixedExit.value >= sessionCount {
        return Err(SessionAbsent);
      }
      if session > s.fixedExit.value {
        return Err(ExitMissed);
      }
      if session == s.fixedExit.value {
        r := ApplyFixedExit(store, session, sessionCount);
        return;
      }
    }
    if s.phase.Normal? {
      var orphans := store.LoadPendingEvents(None);
      if orphans != [] {
        return Err(OrphanEvent);
      }
      return Ok(SessionResult([], false, false));
    }
    r := ApplyDueEvents(store, session, sessionCount);
  }

  method ObserveCompletedClose(store: RecoveryStore, session: nat, close: real, sessionCount: nat)
    returns (r: Result<CloseStatus, StoreError>)
    modifies store
    ensures Ran(old(store.View()), old(store.commits), store.View(), store.commits,
                ObserveClose(old(store.View()), session, close, sessionCount), r)
  {
    hide Transition, CancelOpen;
    if close <= 0.0 {
      return Err(NonPositiveClose);
    }
    var s := store.state;
    if s.phase.Normal? {
      return Ok(NoActiveCycle);
    }
    if s.oldAth.None? {
      return Err(InvalidState);
    }
    if close + TOL < s.oldAth.value {
      return Ok(OldAthNotRecovered);
    }
    ghost var was, wasCommits := store.View(), store.commits;
    var error: Option<StoreError>;
    match s.phase {
      case WaitD40 =>
        var cut := CancelOpenEvents(store, CycleOf(s), None, sessionCount);
        if cut.Err? {
          return Err(cut.error);
        }
        RanMore(was, wasCommits, CancelOpen(was, CycleOf(s), None, sessionCount).commits,
                CloseTransition(store.View(), CancelKey(CycleOf(s), session), Normal, OldAthBeforeFirstEntry,
                                CLEAR_CYCLE, CancelledBeforeFirstEntry).commits);
        error := store.TransitionState(CancelKey(CycleOf(s), session), Normal, OldAthBeforeFirstEntry, CLEAR_CYCLE, NoPayload);
        r := if error.Some? then Err(error.value) else Ok(CancelledBeforeFirstEntry);
      case RecoveryActive =>
        if s.recovered {
          return Ok(OldAthAlreadyRecorded);
        }
        error := store.TransitionState(RecoveredKey(CycleOf(s), session), RecoveryActive, OldAthWhileActive,
                                       NO_UPDATES.(recovered := Set(true)), NoPayload);
        r := if error.Some? then Err(error.value) else Ok(OldAthRecoveryRecorded);
      case OldAthGuard =>
        error := store.TransitionState(RearmKey(CycleOf(s), session), Normal, RearmAfterOldAth, CLEAR_CYCLE, NoPayload);
        r := if error.Some? then Err(error.value) else Ok(RearmedOnOldAth);
    }
  }

  method IngestSession(store: RecoveryStore, events: seq<SourceEvent>, session: nat, sessionCount: nat)
    returns (r: Result<(), StoreError>)
    modifies store
    ensures Ran(old(store.View()), old(store.commits), store.View(), store.commits,
                IngestAll(old(store.View()), events, session, sessionCount), r)
  {
    hide Ingest;
    ghost var was, wasCommits := store.View(), store.commits;
    ghost var done: seq<Db> := [];
    var todo := events;
    while todo != []
      invariant store.View() == End(was, done) && store.commits == wasCommits + done
      invariant IngestAll(was, events, session, sessionCount) == After(done, IngestAll(store.View(), todo, session, sessionCount))
      decreases |todo|
    {
      ghost var before := store.View();
      ghost var head := Ingest(before, todo[0], session, sessionCount);
      ghost var rest := IngestAll(End(before, head.commits), todo[1..], session, sessionCount);
      RanMore(was, wasCommits, done, head.commits);
      var one := IngestSourceEvent(store, todo[0], session, sessionCount);
      if one.Err? {
        return Err(one.error);
      }
      assert done + (head.commits + rest.commits) == (done + head.commits) + rest.commits;
      done := done + head.commits;
      todo := todo[1..];
    }
    return Ok(());
  }

  // The loop over the rows, on a store that was just initialised.
  method ReplayRows(store: RecoveryStore, closes: seq<real>, events: seq<SourceEvent>) returns (r: Result<(), StoreError>)
    requires store.View() == InitialDb(0.0)
    modifies store
    ensures ReplayTo(closes, events, |closes|) == if r.Ok? then Ok(store.View()) else Err(r.error)
  {
    hide Process, IngestAll, ObserveClose, EventsOn;
    for t := 0 to |closes|
      invariant ReplayTo(closes, events, t) == Ok(store.View())
    {
      ghost var db := store.View();
      var n := |closes|;
      var processed := ProcessExecutionSession(store, t, n);
      if processed.Err? {
        ReplayErrorStays(closes, events, t + 1, n);
        return Err(processed.error);
      }
      ghost var db1 := store.View();
      var todays := EventsOn(events, t);
      var ingested := IngestSession(store, todays, t, n);
      if ingested.Err? {
        ReplayErrorStays(closes, events, t + 1, n);
        return Err(ingested.error);
      }
      ghost var db2 := store.View();
      var observed := ObserveCompletedClose(store, t, closes[t], n);
      RanMore(db, [], Process(db, t, n).commits, IngestAll(db1, todays, t, n).commits);
      RanMore(db, [], Process(db, t, n).commits + IngestAll(db1, todays, t, n).commits,
              ObserveClose(db2, t, closes[t], n).commits);
      if observed.Err? {
        ReplayErrorStays(closes, events, t + 1, n);
        return Err(observed.error);
      }
    }
    return Ok(());
  }

  lemma {:induction false} ReplayErrorStays(closes: seq<real>, events: seq<SourceEvent>, i: nat, j: nat)
    requires i <= j <= |closes| && ReplayTo(closes, events, i).Err?
    ensures ReplayTo(closes, events, j) == ReplayTo(closes, events, i)
    decreases j
  {
    hide Session;
    if i < j {
      ReplayErrorStays(closes, events, i, j - 1);
    }
  }

  // replay_compiled_history_to_store on a fresh store.
  method ReplayCompiledHistory(closes: seq<real>) returns (r: Result<Db, StoreError>)
    ensures r == Replay(closes)
  {
    hide SC.SourceCycles, ReplayTo, AllEvents, ValidState;
    var compiled := SC.CompileSourceCycles(closes);
    if compiled.Err? {
      return Err(CompileFailed);
    }
    var store := new RecoveryStore(0.0);
    var ran := ReplayRows(store, closes, AllEvents(compiled.value));
    if ran.Err? {
      return Err(ran.error);
    }
    if !ValidState(store.state) {
      return Err(InvalidState);
    }
    return Ok(store.View());
  }
}
