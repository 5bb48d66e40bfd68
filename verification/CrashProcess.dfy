// Crash idempotence of process_execution_session, for calls that return and calls that raise.
module CrashProcess {
  import opened Common
  import opened RecoveryTables
  import opened Dispatcher
  import opened StoreLemmas
  import opened StoreSteps
  import opened FinalSchedule
  import opened CrashSafety

  // A store between rows of a replay, stops included: open events belong to the live cycle,
  // none outlives it, and all were signalled before this session.
  ghost predicate Orderly(db: Db, session: nat) {
    && UniqueKeys(db.events)
    && (db.state.cycleId.None? ==> db.state.phase.Normal?)
    && forall row :: row in db.events && Open(row) ==>
         && (db.state.phase.WaitD40? || db.state.phase.RecoveryActive?)
         && db.state.cycleId == Some(row.cycleId)
         && row.maturity <= session + ENTRY_DELAY
  }

  lemma OrderlyKeys(db: Db, session: nat)
    requires Orderly(db, session)
    ensures UniqueKeys(db.events)
  {
  }

  // The call from a stopped store ends as the undisturbed one does.
  ghost predicate GoesOn(db: Db, d: Db, session: nat, sessionCount: nat) {
    var run, again := Process(db, session, sessionCount), Process(d, session, sessionCount);
    && Orderly(d, session) && SameOutcome(again.outcome, run.outcome)
    && End(d, again.commits) == End(db, run.commits)
  }

  /* ---- The exit ---- */

  lemma OrderlyCut(db: Db, d: Db, session: nat)
    requires Orderly(db, session) && PartlyCancelled(db.events, d.events, CycleOf(db.state)) && d.state == db.state
    ensures Orderly(d, session)
  {
    CutAgain(db.events, d.events, CycleOf(db.state));
    forall row | row in d.events && Open(row) ensures row in db.events {
      var m :| 0 <= m < |d.events| && d.events[m] == row;
      assert db.events[m] in db.events;
    }
  }

  ghost predicate NoneOpen(db: Db) {
    forall row :: row in db.events ==> !Open(row)
  }

  lemma ClearedIsQuiet(db: Db, session: nat)
    requires Orderly(db, session)
    ensures NoneOpen(Cleared(db))
  {
    var now := CancelCycle(db.events, CycleOf(db.state));
    forall row | row in now ensures !Open(row) {
      var m :| 0 <= m < |now| && now[m] == row;
      assert db.events[m] in db.events;
    }
  }

  lemma QuietOrderly(db: Db, session: nat)
    requires NoneOpen(db) && UniqueKeys(db.events)
    requires db.state.cycleId.None? ==> db.state.phase.Normal?
    ensures Orderly(db, session) && PendingEvents(db, None) == []
  {
    NothingToCancel(db, None);
  }

  // RearmIfReady commits at most once, and then it is done.
  lemma RearmAgain(db: Db)
    requires RearmIfReady(db).commits != []
    ensures var next := RearmIfReady(db).commits[0];
            && RearmIfReady(db).outcome.Ok? && RearmIfReady(db).commits == [next] && next.events == db.events
            && (next == db || next.state.phase.Normal?)
  {
    var s := db.state;
    TransitionTwice(db, RearmAfterExitKey(CycleOf(s), if s.fixedExit.Some? then s.fixedExit.value else 0), Normal,
                    RearmAfterFixedExit, CLEAR_CYCLE, NoPayload);
  }

  // Once the exit is journaled nothing is open, and a call only looks at the rearm.
  lemma GuardCall(db: Db, session: nat, sessionCount: nat, k: nat)
    requires session < sessionCount && NoneOpen(db) && UniqueKeys(db.events)
    requires db.state.phase.OldAthGuard? && db.state.cycleId.Some?
    ensures var run, rearm := Process(db, session, sessionCount), RearmIfReady(db);
            && run.commits == rearm.commits && (run.outcome.Ok? <==> rearm.outcome.Ok?)
            && (rearm.outcome.Err? ==> run.outcome == Err(rearm.outcome.error))
    ensures GoesOn(db, StoppedAt(db, Process(db, session, sessionCount), k), session, sessionCount)
  {
    hide RearmIfReady, UniqueKeys;
    QuietOrderly(db, session);
    var run := Process(db, session, sessionCount);
    if RearmIfReady(db).commits == [] || k == 0 {
      assert StoppedAt(db, run, k) == db;
    } else {
      RearmAgain(db);
      var next := run.commits[0];
      assert StoppedAt(db, run, k) == next;
      QuietOrderly(next, session);
    }
  }

  // The store once every open event of the live cycle is cancelled.
  function Cleared(db: Db): Db {
    db.(events := CancelCycle(db.events, CycleOf(db.state)))
  }

  // On its exit session a call cancels, and goes on from the cleared store.
  lemma ExitCall(db: Db, session: nat, sessionCount: nat)
    requires UniqueKeys(db.events) && db.state.phase.RecoveryActive? && db.state.fixedExit == Some(session) && session < sessionCount
    ensures var cut, tail := CancelOpen(db, CycleOf(db.state), None, sessionCount).commits, ExitAndRearm(Cleared(db), session);
            && End(db, cut) == Cleared(db)
            && Process(db, session, sessionCount) == After(cut, tail)
            && End(db, Process(db, session, sessionCount).commits) == End(Cleared(db), tail.commits)
  {
    hide CancelOpen, ExitAndRearm, CancelCycle, UniqueKeys;
    CutDoes(db, CycleOf(db.state), sessionCount);
    EndAfter(db, CancelOpen(db, CycleOf(db.state), None, sessionCount).commits, ExitAndRearm(Cleared(db), session).commits);
  }

  // Cancelling again changes nothing, so a call before the exit row goes on as the first did.
  lemma ExitFromCut(db: Db, d: Db, session: nat, sessionCount: nat)
    requires Orderly(db, session) && db.state.phase.RecoveryActive? && db.state.fixedExit == Some(session) && session < sessionCount
    requires d == db.(events := d.events) && PartlyCancelled(db.events, d.events, CycleOf(db.state))
    ensures GoesOn(db, d, session, sessionCount)
  {
    hide Orderly, CancelOpen, ExitAndRearm, CancelCycle, PartlyCancelled, UniqueKeys, Process;
    OrderlyKeys(db, session);
    CutAgain(db.events, d.events, CycleOf(db.state));
    OrderlyCut(db, d, session);
    ExitCall(db, session, sessionCount);
    ExitCall(d, session, sessionCount);
  }

  // The exit itself: refused, replayed without a move, or journaled with nothing left open.
  lemma ExitTail(db: Db, session: nat) returns (exited: Db, rearm: Run<bool>)
    requires Orderly(db, session) && db.state.phase.RecoveryActive? && ExitAndRearm(Cleared(db), session).commits != []
    ensures var tail := ExitAndRearm(Cleared(db), session);
            && tail.commits == [exited] + rearm.commits && (tail.outcome.Ok? <==> rearm.outcome.Ok?)
            && (rearm.outcome.Err? ==> tail.outcome == Err(rearm.outcome.error))
    ensures rearm == RearmIfReady(exited)
    ensures exited == Cleared(db) || exited.state.phase.OldAthGuard?
    ensures exited.state.cycleId.Some? && NoneOpen(exited) && UniqueKeys(exited.events)
  {
    hide UniqueKeys, Transition, RearmIfReady, CancelCycle, PartlyCancelled, NoneOpen;
    var cleared, id := Cleared(db), CycleOf(db.state);
    NothingLeft(db.events, id);
    CutAgain(db.events, cleared.events, id);
    ClearedIsQuiet(db, session);
    TransitionTwice(cleared, FixedExitKey(id, session), OldAthGuard, H378FixedExit, EXIT_UPDATES, NoPayload);
    exited := Transition(cleared, FixedExitKey(id, session), OldAthGuard, H378FixedExit, EXIT_UPDATES, NoPayload).value;
    rearm := RearmIfReady(exited);
    SameRows(cleared, exited);
  }

  lemma SameRows(a: Db, b: Db)
    requires a.events == b.events
    ensures NoneOpen(a) ==> NoneOpen(b)
  {
  }

  lemma ExitAgain(db: Db, session: nat, sessionCount: nat, k: nat)
    requires Orderly(db, session) && db.state.phase.RecoveryActive? && db.state.fixedExit == Some(session) && session < sessionCount
    ensures GoesOn(db, StoppedAt(db, Process(db, session, sessionCount), k), session, sessionCount)
  {
    hide Orderly, CancelOpen, ExitAndRearm, RearmIfReady, CancelCycle, PartlyCancelled, NoneOpen, UniqueKeys, Process, GoesOn;
    var id, run := CycleOf(db.state), Process(db, session, sessionCount);
    OrderlyKeys(db, session);
    ExitCall(db, session, sessionCount);
    var cut, tail := CancelOpen(db, id, None, sessionCount).commits, ExitAndRearm(Cleared(db), session);
    var d := StoppedAt(db, run, k);
    if k <= |cut| || tail.commits == [] {
      var k' := if k <= |cut| then k else |cut|;
      assert d == End(db, cut[..k']) by {
        assert run.commits[..k'] == cut[..k'];
        assert run.commits[..|run.commits|] == run.commits;
      }
      CutStopped(db, id, sessionCount, k');
      ExitFromCut(db, d, session, sessionCount);
    } else {
      var exited, rearm := ExitTail(db, session);
      assert run.commits == (cut + [exited]) + rearm.commits;
      var k' := k - |cut| - 1;
      StoppedInTail(db, cut + [exited], rearm.commits, k);
      SameStops(db, run, Run((cut + [exited]) + rearm.commits, Ok(true)), k);
      SameStops(exited, rearm, Run(rearm.commits, Ok(true)), k');
      assert d == StoppedAt(exited, rearm, k');
      if exited == Cleared(db) {
        NotGuarded(exited);
        NothingLeft(db.events, id);
        ExitFromCut(db, exited, session, sessionCount);
      } else {
        GuardCall(exited, session, sessionCount, k');
        SameStops(exited, Process(exited, session, sessionCount), rearm, k');
        EndAfter(Cleared(db), [exited], rearm.commits);
        OnFrom(db, exited, d, session, sessionCount);
      }
    }
  }

  // Going on from a store that itself goes on.
  lemma OnFrom(db: Db, middle: Db, d: Db, session: nat, sessionCount: nat)
    requires GoesOn(middle, d, session, sessionCount)
    requires SameOutcome(Process(middle, session, sessionCount).outcome, Process(db, session, sessionCount).outcome)
    requires End(middle, Process(middle, session, sessionCount).commits) == End(db, Process(db, session, sessionCount).commits)
    ensures GoesOn(db, d, session, sessionCount)
  {
    hide Orderly, Process;
  }

  lemma NotGuarded(db: Db)
    requires !db.state.phase.OldAthGuard?
    ensures RearmIfReady(db).commits == []
  {
  }

  lemma SameStops<T, U>(db: Db, a: Run<T>, b: Run<U>, k: nat)
    requires a.commits == b.commits
    ensures StoppedAt(db, a, k) == StoppedAt(db, b, k)
  {
  }

  lemma StoppedInTail(db: Db, head: seq<Db>, tail: seq<Db>, k: nat)
    requires head != [] && k >= |head|
    ensures StoppedAt(db, Run(head + tail, Ok(true)), k) == StoppedAt(Last(head), Run(tail, Ok(true)), k - |head|)
  {
    var all := head + tail;
    if k <= |all| {
      assert all[..k] == head + tail[..k - |head|];
      EndAfter(db, head, tail[..k - |head|]);
    } else {
      EndAfter(db, head, tail);
    }
  }

  /* ---- The due events ---- */

  predicate DueNow(row: EventRow, cycleId: nat, session: nat) {
    Open(row) && row.cycleId == cycleId && row.maturity == session
  }

  // The open events of the cycle that mature now, in the order of their insertion.
  function DueOf(events: seq<EventRow>, cycleId: nat, session: nat): seq<EventRow> {
    if events == [] then []
    else DueOf(DropLast(events), cycleId, session) + if DueNow(Last(events), cycleId, session) then [Last(events)] else []
  }

  function AtSession(rows: seq<EventRow>, session: nat): seq<EventRow> {
    if rows == [] then []
    else AtSession(DropLast(rows), session) + if Last(rows).maturity == session then [Last(rows)] else []
  }

  lemma {:induction false} DueRowsAre(rows: seq<EventRow>, session: nat, sessionCount: nat)
    ensures DueRows(rows, session, sessionCount).Ok? <==> forall i :: 0 <= i < |rows| ==> session <= rows[i].maturity < sessionCount
    ensures DueRows(rows, session, sessionCount).Ok? ==> DueRows(rows, session, sessionCount).value == AtSession(rows, session)
  {
    if rows != [] {
      var front := DropLast(rows);
      DueRowsAre(front, session, sessionCount);
      assert forall i :: 0 <= i < |front| ==> front[i] == rows[i];
    }
  }

  // The sort by maturity keeps the order of the rows of one session.
  lemma {:induction false} InsertAtSession(s: seq<EventRow>, x: EventRow, session: nat)
    ensures AtSession(Insert(EarlierMaturity, s, x), session) == AtSession(s, session) + AtSession([x], session)
  {
    assert DropLast([x]) == [];
    if s == [] {
    } else if EarlierMaturity(Last(s), x) {
      assert DropLast(s + [x]) == s;
    } else {
      var front := DropLast(s);
      InsertAtSession(front, x, session);
      var r := Insert(EarlierMaturity, front, x);
      assert DropLast(r + [Last(s)]) == r;
    }
  }

  lemma {:induction false} SortAtSession(s: seq<EventRow>, session: nat)
    ensures AtSession(Sort(EarlierMaturity, s), session) == AtSession(s, session)
  {
    if s != [] {
      SortAtSession(DropLast(s), session);
      InsertAtSession(Sort(EarlierMaturity, DropLast(s)), Last(s), session);
      assert DropLast([Last(s)]) == [];
    }
  }

  lemma {:induction false} OpenAtSession(events: seq<EventRow>, cycleId: nat, session: nat)
    ensures AtSession(OpenRows(events, Some(cycleId)), session) == DueOf(events, cycleId, session)
  {
    if events != [] {
      var front := DropLast(events);
      OpenAtSession(front, cycleId, session);
      var open := OpenRows(front, Some(cycleId));
      if Open(Last(events)) && Last(events).cycleId == cycleId {
        assert OpenRows(events, Some(cycleId)) == open + [Last(events)];
        assert DropLast(open + [Last(events)]) == open;
      } else {
        assert OpenRows(events, Some(cycleId)) == open;
      }
    }
  }

  // pending_events then the due ones: refused iff some open event of the cycle is missed or off the
  // calendar, else those maturing now in the order of their insertion.
  lemma DueListed(db: Db, cycleId: nat, session: nat, sessionCount: nat)
    ensures var due := DueRows(PendingEvents(db, Some(cycleId)), session, sessionCount);
            && (due.Ok? <==> OpenFrom(db, cycleId, session, sessionCount))
            && (due.Ok? ==> due.value == DueOf(db.events, cycleId, session))
  {
    var open, rows := OpenRows(db.events, Some(cycleId)), PendingEvents(db, Some(cycleId));
    DueRowsAre(rows, session, sessionCount);
    SortAtSession(open, session);
    OpenAtSession(db.events, cycleId, session);
    forall row ensures row in rows <==> row in db.events && Open(row) && row.cycleId == cycleId {
      SortMembers(EarlierMaturity, open, row);
      OpenRowsMembers(db.events, Some(cycleId), row);
    }
    if OpenFrom(db, cycleId, session, sessionCount) {
      forall i | 0 <= i < |rows| ensures session <= rows[i].maturity < sessionCount {
        assert rows[i] in rows;
      }
    }
  }

  lemma {:induction false} DueMember(events: seq<EventRow>, cycleId: nat, session: nat, i: nat) returns (m: nat)
    requires i < |DueOf(events, cycleId, session)|
    ensures m < |events| && events[m] == DueOf(events, cycleId, session)[i] && DueNow(events[m], cycleId, session)
  {
    var front := DropLast(events);
    if i < |DueOf(front, cycleId, session)| {
      m := DueMember(front, cycleId, session, i);
    } else {
      m := |events| - 1;
    }
  }

  lemma {:induction false} SameDue(events: seq<EventRow>, cycleId: nat, session: nat, key: SourceKey, toStatus: EventStatus)
    requires forall i :: 0 <= i < |events| ==> events[i].key != key
    ensures DueOf(WithStatus(events, key, toStatus), cycleId, session) == DueOf(events, cycleId, session)
  {
    if events != [] {
      SameDue(DropLast(events), cycleId, session, key, toStatus);
      assert DropLast(WithStatus(events, key, toStatus)) == WithStatus(DropLast(events), key, toStatus);
    }
  }

  lemma LastMarked(events: seq<EventRow>, key: SourceKey, toStatus: EventStatus)
    requires events != []
    ensures var next, last := WithStatus(events, key, toStatus), Last(events);
            && next != [] && DropLast(next) == WithStatus(DropLast(events), key, toStatus)
            && Last(next) == if last.key == key then last.(status := toStatus) else last
  {
  }

  // Marking the first due event: it stays first while it is open, and goes once it is applied.
  lemma {:induction false} DueMarked(events: seq<EventRow>, cycleId: nat, session: nat, toStatus: EventStatus)
    requires UniqueKeys(events) && DueOf(events, cycleId, session) != []
    requires toStatus.Matured? || toStatus.Applied?
    ensures var due := DueOf(events, cycleId, session);
            DueOf(WithStatus(events, due[0].key, toStatus), cycleId, session) ==
            (if toStatus.Matured? then [due[0].(status := Matured)] else []) + due[1..]
  {
    hide WithStatus, DueOf, UniqueKeys;
    NextDue(events, cycleId, session);
    var front, last, due := DropLast(events), Last(events), DueOf(events, cycleId, session);
    var key := due[0].key;
    LastMarked(events, key, toStatus);
    NextDue(WithStatus(events, key, toStatus), cycleId, session);
    UniqueFront(events);
    var before := DueOf(front, cycleId, session);
    var more := if DueNow(last, cycleId, session) then [last] else [];
    if before != [] {
      DueMarked(front, cycleId, session, toStatus);
      var m := DueMember(front, cycleId, session, 0);
      assert front[m] == events[m] && key != last.key;
      assert due[1..] == before[1..] + more;
    } else {
      assert due == [last] && due[1..] == [];
      SameDue(front, cycleId, session, key, toStatus);
    }
  }

  lemma NextDue(events: seq<EventRow>, cycleId: nat, session: nat)
    ensures DueOf([], cycleId, session) == []
    ensures events != [] ==>
              DueOf(events, cycleId, session) ==
              DueOf(DropLast(events), cycleId, session) + if DueNow(Last(events), cycleId, session) then [Last(events)] else []
  {
  }

  lemma UniqueFront(events: seq<EventRow>)
    requires UniqueKeys(events) && events != []
    ensures UniqueKeys(DropLast(events))
    ensures forall i :: 0 <= i < |events| - 1 ==> events[i].key != Last(events).key
  {
  }

  // A session whose phase lets due events through.
  ghost predicate Passing(db: Db, session: nat, sessionCount: nat) {
    && session < sessionCount && db.state.cycleId.Some?
    && (db.state.phase.WaitD40?
        || (db.state.phase.RecoveryActive? && db.state.fixedExit.Some? && session < db.state.fixedExit.value < sessionCount))
  }

  lemma PassingCall(db: Db, session: nat, sessionCount: nat)
    requires Passing(db, session, sessionCount)
    ensures Process(db, session, sessionCount) == ProcessDue(db, session, sessionCount)
  {
    hide ProcessDue;
  }

  // A store whose events of this session can be applied one by one.
  ghost predicate Applicable(db: Db, session: nat, sessionCount: nat) {
    && Orderly(db, session) && Passing(db, session, sessionCount)
    && OpenFrom(db, CycleOf(db.state), session, sessionCount)
  }

  // Row m is due now.
  ghost predicate DueRow(db: Db, m: nat, session: nat) {
    m < |db.events| && DueNow(db.events[m], CycleOf(db.state), session)
  }

  // Writing a status to a due row leaves the store applicable.
  lemma StageApplicable(db: Db, d: Db, m: nat, toStatus: EventStatus, session: nat, sessionCount: nat)
    requires Applicable(db, session, sessionCount) && DueRow(db, m, session) && Passing(d, session, sessionCount)
    requires d.events == WithStatus(db.events, db.events[m].key, toStatus) && d.state.cycleId == db.state.cycleId
    ensures Applicable(d, session, sessionCount)
  {
    UniqueAfterStatus(db.events, db.events[m].key, toStatus);
    forall row | row in d.events && Open(row)
      ensures d.state.cycleId == Some(row.cycleId) && row.maturity <= session + ENTRY_DELAY
      ensures session <= row.maturity < sessionCount
    {
      var i :| 0 <= i < |d.events| && d.events[i] == row;
      OnlyThisKey(db.events, m, i);
      assert db.events[i] in db.events && Open(db.events[i]);
    }
  }

  lemma OnlyThisKey(events: seq<EventRow>, m: nat, i: nat)
    requires UniqueKeys(events) && m < |events| && i < |events|
    ensures events[i].key == events[m].key ==> i == m
  {
    assert i < m ==> events[i].key != events[m].key;
    assert m < i ==> events[m].key != events[i].key;
  }

  /* ---- The stages of one due event ---- */

  function MarkedMatured(db: Db, m: nat): Db
    requires m < |db.events|
  {
    db.(events := WithStatus(db.events, db.events[m].key, Matured))
  }

  function Done(moved: Db, db: Db, m: nat): Db
    requires m < |db.events|
  {
    moved.(events := WithStatus(db.events, db.events[m].key, Applied))
  }

  // The transition is journaled: what is left is to mark the event.
  ghost predicate MovedFrom(db: Db, m: nat, moved: Db, session: nat, sessionCount: nat) {
    && m < |db.events|
    && moved.events == MarkedMatured(db, m).events && moved.state.cycleId == db.state.cycleId
    && Passing(moved, session, sessionCount)
    && FindTransition(moved.transitions, ApplyKey(db.events[m].key)).Some?
  }

  lemma AlreadyMatured(events: seq<EventRow>, m: nat)
    requires UniqueKeys(events) && m < |events| && events[m].status.Matured?
    ensures WithStatus(events, events[m].key, Matured) == events
  {
    forall i | 0 <= i < |events| ensures WithStatus(events, events[m].key, Matured)[i] == events[i] {
      OnlyThisKey(events, m, i);
    }
  }

  // Applying a due row first marks it MATURED; then it raises without a commit, or commits the
  // transition and the mark.
  lemma ApplyStages(db: Db, m: nat, session: nat, sessionCount: nat) returns (moved: Db)
    requires Applicable(db, session, sessionCount) && DueRow(db, m, session)
    ensures var a, r := ApplyDue(db, db.events[m], session, sessionCount), ResumeOrApply(MarkedMatured(db, m), db.events[m], session, sessionCount);
            && a.commits == (if db.events[m].status.Pending? then [MarkedMatured(db, m)] else []) + r.commits
            && a.outcome == r.outcome
            && (db.events[m].status.Matured? ==> MarkedMatured(db, m) == db)
            && (r.outcome.Err? ==> r.commits == [])
            && (r.outcome.Ok? ==> r == Run([moved, Done(moved, db, m)], Ok(())) && MovedFrom(db, m, moved, session, sessionCount))
  {
    hide SetStatus, Orderly, ResumeOrApply, OpenFrom, WithStatus, MovedFrom;
    var row := db.events[m];
    OrderlyKeys(db, session);
    if row.status.Pending? {
      SetStatusAt(db, m, Matured);
    } else {
      AlreadyMatured(db.events, m);
    }
    moved := MovedStage(db, m, session, sessionCount);
  }

  lemma MovedStage(db: Db, m: nat, session: nat, sessionCount: nat) returns (moved: Db)
    requires Applicable(db, session, sessionCount) && DueRow(db, m, session)
    ensures var r := ResumeOrApply(MarkedMatured(db, m), db.events[m], session, sessionCount);
            && (r.outcome.Err? ==> r.commits == [])
            && (r.outcome.Ok? ==> r == Run([moved, Done(moved, db, m)], Ok(())) && MovedFrom(db, m, moved, session, sessionCount))
  {
    hide SetStatus, Orderly, OpenFrom, WithStatus, Transition, CancelOpen, ApplyMatured;
    var row, matured := db.events[m], MarkedMatured(db, m);
    OrderlyKeys(db, session);
    moved := matured;
    match FindTransition(matured.transitions, ApplyKey(row.key))
    case Some(recorded) =>
      RecordedAgain(matured, recorded);
      MarkApplied(db.events, moved, m);
    case None =>
      if matured.state.phase.WaitD40? {
        moved := EntryStage(db, m, session, sessionCount);
      } else {
        moved := ScaleStage(db, m, session, sessionCount);
      }
  }

  lemma RecordedAgain(db: Db, recorded: TransitionRow)
    requires FindTransition(db.transitions, recorded.key) == Some(recorded)
    ensures Transition(db, recorded.key, recorded.toPhase, recorded.reason, recorded.updates, recorded.payload) == Ok(db)
  {
  }

  lemma EntryStage(db: Db, m: nat, session: nat, sessionCount: nat) returns (moved: Db)
    requires Applicable(db, session, sessionCount) && DueRow(db, m, session) && db.state.phase.WaitD40?
    requires FindTransition(db.transitions, ApplyKey(db.events[m].key)).None?
    ensures var r := ApplyMatured(MarkedMatured(db, m), db.events[m], session, sessionCount);
            && (r.outcome.Err? ==> r.commits == [])
            && (r.outcome.Ok? ==> r == Run([moved, Done(moved, db, m)], Ok(())) && MovedFrom(db, m, moved, session, sessionCount))
  {
    hide SetStatus, Orderly, WithStatus, CancelOpen, OpenFrom, ValidState;
    var row, matured := db.events[m], MarkedMatured(db, m);
    OrderlyKeys(db, session);
    var updates, payload := EntryUpdates(row.target, session), ApplyPayload(row.key, row.maturity);
    moved := Moved(matured, ApplyKey(row.key), RecoveryActive, ApplyFirstEntry, updates, payload);
    if Transition(matured, ApplyKey(row.key), RecoveryActive, ApplyFirstEntry, updates, payload).Ok? && session + FIXED_HOLD < sessionCount {
      assert Transition(matured, ApplyKey(row.key), RecoveryActive, ApplyFirstEntry, updates, payload) == Ok(moved);
      EverythingMaturesSoon(db, m, moved, session, sessionCount);
      BoundedCutIsVacuous(moved, row.cycleId, session + FIXED_HOLD, sessionCount);
      MarkApplied(db.events, moved, m);
      assert [moved] + [] == [moved];
      LastFound(moved.transitions);
    }
  }

  lemma LastFound(rows: seq<TransitionRow>)
    requires rows != []
    ensures FindTransition(rows, Last(rows).key).Some?
  {
  }

  // Every event open at the first entry matures within 40 sessions, long before the exit, so
  // the cancellation that a resumed call skips would have cancelled nothing.
  lemma EverythingMaturesSoon(db: Db, m: nat, moved: Db, session: nat, sessionCount: nat)
    requires Orderly(db, session) && m < |db.events|
    requires moved.events == WithStatus(db.events, db.events[m].key, Matured) && Open(db.events[m])
    requires session + FIXED_HOLD < sessionCount
    ensures OpenBefore(moved, db.events[m].cycleId, session + FIXED_HOLD, sessionCount)
  {
    forall row | row in moved.events && Open(row) ensures row.maturity <= session + ENTRY_DELAY {
      var i :| 0 <= i < |moved.events| && moved.events[i] == row;
      assert db.events[i] in db.events;
      OnlyThisKey(db.events, m, i);
    }
  }

  lemma ScaleStage(db: Db, m: nat, session: nat, sessionCount: nat) returns (moved: Db)
    requires Applicable(db, session, sessionCount) && DueRow(db, m, session) && !db.state.phase.WaitD40?
    requires FindTransition(db.transitions, ApplyKey(db.events[m].key)).None?
    ensures var r := ApplyMatured(MarkedMatured(db, m), db.events[m], session, sessionCount);
            && (r.outcome.Err? ==> r.commits == [])
            && (r.outcome.Ok? ==> r == Run([moved, Done(moved, db, m)], Ok(())) && MovedFrom(db, m, moved, session, sessionCount))
  {
    hide SetStatus, Orderly, WithStatus, OpenFrom, ValidState;
    var row, matured := db.events[m], MarkedMatured(db, m);
    OrderlyKeys(db, session);
    var updates, payload := NO_UPDATES.(target := Set(row.target)), ApplyPayload(row.key, row.maturity);
    moved := Moved(matured, ApplyKey(row.key), RecoveryActive, ApplyScaleUp, updates, payload);
    if Transition(matured, ApplyKey(row.key), RecoveryActive, ApplyScaleUp, updates, payload).Ok? {
      assert Transition(matured, ApplyKey(row.key), RecoveryActive, ApplyScaleUp, updates, payload) == Ok(moved);
      MarkApplied(db.events, moved, m);
      LastFound(moved.transitions);
    }
  }

  /* ---- Calling again from each stage ---- */

  // The call does not look at the status of a matured row again.
  lemma StatusBlind(db: Db, row: EventRow, session: nat, sessionCount: nat)
    ensures ResumeOrApply(db, row.(status := Matured), session, sessionCount) == ResumeOrApply(db, row, session, sessionCount)
  {
  }

  // A call applies its first due event, and goes on as from the store that leaves.
  lemma FirstDue(db: Db, m: nat, session: nat, sessionCount: nat)
    requires Applicable(db, session, sessionCount)
    requires var due := DueOf(db.events, CycleOf(db.state), session); due != [] && m < |db.events| && db.events[m] == due[0]
    requires var a := ApplyDue(db, db.events[m], session, sessionCount);
             a.outcome.Ok? ==>
               var done := End(db, a.commits);
               && Applicable(done, session, sessionCount) && CycleOf(done.state) == CycleOf(db.state)
               && DueOf(done.events, CycleOf(db.state), session) == DueOf(db.events, CycleOf(db.state), session)[1..]
    ensures var a, run := ApplyDue(db, db.events[m], session, sessionCount), Process(db, session, sessionCount);
            if a.outcome.Err? then run.commits == a.commits && run.outcome == Err(a.outcome.error)
            else
              var done := End(db, a.commits);
              && run.commits == a.commits + Process(done, session, sessionCount).commits
              && SameOutcome(Process(done, session, sessionCount).outcome, run.outcome)
              && End(db, run.commits) == End(done, Process(done, session, sessionCount).commits)
  {
    hide ApplyDue, DueRows, PendingEvents, ValidState, Orderly, DueOf, Process;
    var id := CycleOf(db.state);
    DueListed(db, id, session, sessionCount);
    PassingCall(db, session, sessionCount);
    var due, a := DueOf(db.events, id, session), ApplyDue(db, db.events[m], session, sessionCount);
    if a.outcome.Ok? {
      var done := End(db, a.commits);
      DueListed(done, id, session, sessionCount);
      PassingCall(done, session, sessionCount);
      EndAfter(db, a.commits, ApplyAll(done, due[1..], session, sessionCount).commits);
    }
  }

  // With the row MATURED, a call resumes it and goes on as before.
  lemma FromStage(db: Db, d: Db, m: nat, moved: Db, session: nat, sessionCount: nat)
    requires Applicable(db, session, sessionCount) && Passing(d, session, sessionCount)
    requires var due := DueOf(db.events, CycleOf(db.state), session); due != [] && m < |db.events| && db.events[m] == due[0]
    requires d.events == MarkedMatured(db, m).events && d.state.cycleId == db.state.cycleId
    requires var r := ResumeOrApply(d, db.events[m], session, sessionCount);
             && (r.outcome.Err? ==> r.commits == [])
             && (r.outcome.Ok? ==> r == Run([moved, Done(moved, db, m)], Ok(())) && MovedFrom(db, m, moved, session, sessionCount))
    ensures Applicable(d, session, sessionCount)
    ensures var r, again := ResumeOrApply(d, db.events[m], session, sessionCount), Process(d, session, sessionCount);
            if r.outcome.Err? then again.commits == [] && again.outcome == Err(r.outcome.error)
            else
              var done := Done(moved, db, m);
              && SameOutcome(Process(done, session, sessionCount).outcome, again.outcome)
              && End(d, again.commits) == End(done, Process(done, session, sessionCount).commits)
  {
    hide Applicable, DueOf, WithStatus, ResumeOrApply, Process, Passing, UniqueKeys;
    FirstIsDue(db, m, session, sessionCount);
    StageApplicable(db, d, m, Matured, session, sessionCount);
    DueMarked(db.events, CycleOf(db.state), session, Matured);
    StatusBlind(d, db.events[m], session, sessionCount);
    MarkedAt(db.events, m, Matured);
    if ResumeOrApply(d, db.events[m], session, sessionCount).outcome.Ok? {
      DoneStage(db, m, moved, session, sessionCount);
    }
    FirstDue(d, m, session, sessionCount);
  }

  lemma FirstIsDue(db: Db, m: nat, session: nat, sessionCount: nat)
    requires Applicable(db, session, sessionCount)
    requires var due := DueOf(db.events, CycleOf(db.state), session); due != [] && m < |db.events| && db.events[m] == due[0]
    ensures DueRow(db, m, session) && UniqueKeys(db.events)
  {
    var _ := DueMember(db.events, CycleOf(db.state), session, 0);
  }

  lemma MarkedAt(events: seq<EventRow>, m: nat, toStatus: EventStatus)
    requires m < |events|
    ensures m < |WithStatus(events, events[m].key, toStatus)|
    ensures WithStatus(events, events[m].key, toStatus)[m] == events[m].(status := toStatus)
  {
  }

  // Once the row is APPLIED it is no longer due.
  lemma DoneStage(db: Db, m: nat, moved: Db, session: nat, sessionCount: nat)
    requires Applicable(db, session, sessionCount) && MovedFrom(db, m, moved, session, sessionCount)
    requires var due := DueOf(db.events, CycleOf(db.state), session); due != [] && db.events[m] == due[0]
    ensures var done, due := Done(moved, db, m), DueOf(db.events, CycleOf(db.state), session);
            && Applicable(done, session, sessionCount) && CycleOf(done.state) == CycleOf(db.state)
            && DueOf(done.events, CycleOf(db.state), session) == due[1..]
  {
    hide Applicable, DueOf, WithStatus;
    FirstIsDue(db, m, session, sessionCount);
    StageApplicable(db, Done(moved, db, m), m, Applied, session, sessionCount);
    DueMarked(db.events, CycleOf(db.state), session, Applied);
  }

  lemma MovedResumes(db: Db, m: nat, moved: Db, session: nat, sessionCount: nat)
    requires m < |db.events| && UniqueKeys(db.events) && MovedFrom(db, m, moved, session, sessionCount)
    ensures ResumeOrApply(moved, db.events[m], session, sessionCount) == Run([moved, Done(moved, db, m)], Ok(()))
  {
    hide WithStatus, Transition, Passing;
    var recorded := FindTransition(moved.transitions, ApplyKey(db.events[m].key)).value;
    RecordedAgain(moved, recorded);
    MarkApplied(db.events, moved, m);
  }

  // A call with due events, stopped inside the first of them or behind it.
  lemma {:induction false} DueAgain(db: Db, session: nat, sessionCount: nat, k: nat)
    requires Applicable(db, session, sessionCount)
    ensures GoesOn(db, StoppedAt(db, Process(db, session, sessionCount), k), session, sessionCount)
    decreases |DueOf(db.events, CycleOf(db.state), session)|
  {
    hide Orderly, OpenFrom, Passing, WithStatus, ProcessDue, Process, ApplyDue, ResumeOrApply, FindTransition, UniqueKeys;
    var due, run := DueOf(db.events, CycleOf(db.state), session), Process(db, session, sessionCount);
    if due == [] {
      NoneDue(db, session, sessionCount);
      assert StoppedAt(db, run, k) == db;
    } else {
      hide DueOf, Applicable, GoesOn, MovedFrom;
      var m := DueMember(db.events, CycleOf(db.state), session, 0);
      FirstIsDue(db, m, session, sessionCount);
      var moved := ApplyStages(db, m, session, sessionCount);
      var a := ApplyDue(db, db.events[m], session, sessionCount);
      MaturedPassing(db, m, session, sessionCount);
      FromStage(db, MarkedMatured(db, m), m, moved, session, sessionCount);
      assert [MarkedMatured(db, m)] + [] == [MarkedMatured(db, m)];
      if a.outcome.Err? {
        FirstDue(db, m, session, sessionCount);
        FromRefused(db, m, session, sessionCount, k);
      } else {
        var done := Done(moved, db, m);
        DoneStage(db, m, moved, session, sessionCount);
        assert End(db, a.commits) == done;
        FirstDue(db, m, session, sessionCount);
        MovedResumes(db, m, moved, session, sessionCount);
        MovedFacts(db, m, moved, session, sessionCount);
        FromStage(db, moved, m, moved, session, sessionCount);
        assert [MarkedMatured(db, m)] + [moved, done] == [MarkedMatured(db, m), moved, done];
        assert [] + [moved, done] == [moved, done];
        if k < |a.commits| {
          WithinFirst(db, m, moved, a.commits, session, sessionCount, k);
        } else {
          StoppedInTail(db, a.commits, Process(done, session, sessionCount).commits, k);
          SameStops(db, run, Run(a.commits + Process(done, session, sessionCount).commits, Ok(true)), k);
          SameStops(done, Process(done, session, sessionCount), Run(Process(done, session, sessionCount).commits, Ok(true)), k - |a.commits|);
          DueAgain(done, session, sessionCount, k - |a.commits|);
          OnFrom(db, done, StoppedAt(db, run, k), session, sessionCount);
        }
      }
    }
  }

  lemma NoneDue(db: Db, session: nat, sessionCount: nat)
    requires Applicable(db, session, sessionCount) && DueOf(db.events, CycleOf(db.state), session) == []
    ensures Process(db, session, sessionCount).commits == []
  {
    hide DueRows, PendingEvents, Orderly, Process;
    DueListed(db, CycleOf(db.state), session, sessionCount);
    PassingCall(db, session, sessionCount);
  }

  lemma MaturedPassing(db: Db, m: nat, session: nat, sessionCount: nat)
    requires Applicable(db, session, sessionCount) && m < |db.events|
    ensures Passing(MarkedMatured(db, m), session, sessionCount)
  {
  }

  lemma MovedFacts(db: Db, m: nat, moved: Db, session: nat, sessionCount: nat)
    requires MovedFrom(db, m, moved, session, sessionCount)
    ensures Passing(moved, session, sessionCount) && moved.events == MarkedMatured(db, m).events && moved.state.cycleId == db.state.cycleId
  {
  }

  // Refused at its first event, a call has committed at most the mark.
  lemma FromRefused(db: Db, m: nat, session: nat, sessionCount: nat, k: nat)
    requires Applicable(db, session, sessionCount) && m < |db.events|
    requires Applicable(MarkedMatured(db, m), session, sessionCount)
    requires var run, again := Process(db, session, sessionCount), Process(MarkedMatured(db, m), session, sessionCount);
             && run.outcome.Err? && run.commits in [[], [MarkedMatured(db, m)]] && (run.commits == [] ==> MarkedMatured(db, m) == db)
             && again.commits == [] && again.outcome.Err? && again.outcome.error == run.outcome.error
    ensures GoesOn(db, StoppedAt(db, Process(db, session, sessionCount), k), session, sessionCount)
  {
    hide Orderly, Process, WithStatus;
    var d := StoppedAt(db, Process(db, session, sessionCount), k);
    assert d in [db, MarkedMatured(db, m)];
  }

  // Stopped before its first event is done, a call resumes that event.
  lemma WithinFirst(db: Db, m: nat, moved: Db, commits: seq<Db>, session: nat, sessionCount: nat, k: nat)
    requires Applicable(db, session, sessionCount) && m < |db.events|
    requires Applicable(MarkedMatured(db, m), session, sessionCount) && Applicable(moved, session, sessionCount)
    requires commits in [[MarkedMatured(db, m), moved, Done(moved, db, m)], [moved, Done(moved, db, m)]] && k < |commits|
    requires commits <= Process(db, session, sessionCount).commits
    requires var done := Process(Done(moved, db, m), session, sessionCount);
             forall d :: d in [db, MarkedMatured(db, m), moved] ==>
               var run := Process(d, session, sessionCount);
               SameOutcome(done.outcome, run.outcome) && End(d, run.commits) == End(Done(moved, db, m), done.commits)
    ensures GoesOn(db, StoppedAt(db, Process(db, session, sessionCount), k), session, sessionCount)
  {
    hide Orderly, Process, WithStatus;
    var run := Process(db, session, sessionCount);
    assert run.commits[..k] == commits[..k];
    var d := StoppedAt(db, run, k);
    assert d in [db, MarkedMatured(db, m), moved];
    assert db in [db, MarkedMatured(db, m), moved];
  }

  /* ---- The whole call ---- */

  lemma DueSession(db: Db, session: nat, sessionCount: nat, k: nat)
    requires Orderly(db, session) && Passing(db, session, sessionCount)
    ensures GoesOn(db, StoppedAt(db, Process(db, session, sessionCount), k), session, sessionCount)
  {
    hide Orderly, Process, ApplyAll, DueRows, PendingEvents;
    if OpenFrom(db, CycleOf(db.state), session, sessionCount) {
      DueAgain(db, session, sessionCount, k);
    } else {
      PassingCall(db, session, sessionCount);
      DueListed(db, CycleOf(db.state), session, sessionCount);
      assert StoppedAt(db, Process(db, session, sessionCount), k) == db;
    }
  }

  lemma ProcessAgain(db: Db, session: nat, sessionCount: nat, k: nat)
    requires Orderly(db, session)
    ensures GoesOn(db, StoppedAt(db, Process(db, session, sessionCount), k), session, sessionCount)
  {
    hide RearmIfReady, ProcessExit, ProcessDue, UniqueKeys, PendingEvents;
    var run, s := Process(db, session, sessionCount), db.state;
    if session < sessionCount && s.phase.OldAthGuard? {
      NothingOpenInGuard(db, session);
      GuardCall(db, session, sessionCount, k);
    } else if session < sessionCount && s.phase.RecoveryActive? && s.fixedExit == Some(session) {
      ExitAgain(db, session, sessionCount, k);
    } else if Passing(db, session, sessionCount) {
      DueSession(db, session, sessionCount, k);
    } else {
      assert run.commits == [];
      assert StoppedAt(db, run, k) == db;
    }
  }

  lemma NothingOpenInGuard(db: Db, session: nat)
    requires Orderly(db, session) && db.state.phase.OldAthGuard?
    ensures NoneOpen(db)
  {
  }

  // Any call on an orderly store, with any number of events due, raising ones included.
  lemma ProcessResumes(db: Db, session: nat, sessionCount: nat)
    ensures Resumes(d => Process(d, session, sessionCount), d => Orderly(d, session), db)
  {
    hide Orderly, Process;
    var op := d => Process(d, session, sessionCount);
    var good := d => Orderly(d, session);
    if good(db) {
      forall k: nat ensures ResumesAt(op, good, db, StoppedAt(db, op(db), k)) {
        ProcessAgain(db, session, sessionCount, k);
      }
    }
  }
}
