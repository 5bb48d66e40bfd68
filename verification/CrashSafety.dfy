// Crash idempotence of the dispatcher: an operation stopped after any of its commits and
// called again with the same arguments reaches the store an undisturbed call reaches,
// however often it is stopped.
module CrashSafety {
  import opened Common
  import opened RecoveryTables
  import opened Dispatcher
  import opened StoreLemmas
  import opened StoreSteps
  import opened FinalSchedule
  import Robust

  /* ---- Stopping and calling again ---- */

  // The store left by a call that stops after its first k commits.
  function StoppedAt<T>(db: Db, run: Run<T>, k: nat): Db {
    End(db, if k <= |run.commits| then run.commits[..k] else run.commits)
  }

  // The store at the start of the last call, when a call is stopped at each of these points in
  // turn, called again each time, and finally left alone.
  function LastCall<T>(op: Db -> Run<T>, db: Db, stops: seq<nat>): Db
    decreases |stops|
  {
    if stops == [] then db else LastCall(op, StoppedAt(db, op(db), stops[0]), stops[1..])
  }

  // The store it leaves.
  function AfterStops<T>(op: Db -> Run<T>, db: Db, stops: seq<nat>): Db {
    var last := LastCall(op, db, stops);
    End(last, op(last).commits)
  }

  // Both return, or both raise the same error.
  predicate SameOutcome<T>(a: Result<T, StoreError>, b: Result<T, StoreError>) {
    (a.Ok? <==> b.Ok?) && (a.Err? && b.Err? ==> a.error == b.error)
  }

  // Wherever a call stops, the next one returns or raises alike and ends in the same store.
  ghost predicate Resumes<T(!new)>(op: Db -> Run<T>, good: Db -> bool, db: Db) {
    good(db) ==> forall k: nat :: ResumesAt(op, good, db, StoppedAt(db, op(db), k))
  }

  ghost predicate ResumesAt<T>(op: Db -> Run<T>, good: Db -> bool, db: Db, stopped: Db) {
    && good(stopped) && SameOutcome(op(stopped).outcome, op(db).outcome)
    && End(stopped, op(stopped).commits) == End(db, op(db).commits)
  }

  // One stop that resumes gives any series of stops.
  lemma {:induction false} StopsDoNotMatter<T(!new)>(op: Db -> Run<T>, good: Db -> bool, db: Db, stops: seq<nat>)
    requires (forall d :: Resumes(op, good, d)) && good(db)
    ensures AfterStops(op, db, stops) == End(db, op(db).commits)
    ensures SameOutcome(op(LastCall(op, db, stops)).outcome, op(db).outcome)
    decreases |stops|
  {
    if stops != [] {
      assert Resumes(op, good, db);
      var d := StoppedAt(db, op(db), stops[0]);
      assert ResumesAt(op, good, db, d);
      StopsDoNotMatter(op, good, d, stops[1..]);
    }
  }

  /* ---- Lookups after a write ---- */

  lemma {:induction false} FindAfterStatus(events: seq<EventRow>, key: SourceKey, toStatus: EventStatus)
    ensures FindEvent(WithStatus(events, key, toStatus), key) ==
            match FindEvent(events, key) case None => None case Some(row) => Some(row.(status := toStatus))
  {
    if events != [] {
      FindAfterStatus(DropLast(events), key, toStatus);
      assert DropLast(WithStatus(events, key, toStatus)) == WithStatus(DropLast(events), key, toStatus);
    }
  }

  // A transition is journaled once, or was journaled before and changes nothing.
  lemma TransitionTwice(
    db: Db, key: TransitionKey, toPhase: Phase, reason: Reason, updates: Updates, payload: TransitionPayload)
    requires Transition(db, key, toPhase, reason, updates, payload).Ok?
    ensures var next := Transition(db, key, toPhase, reason, updates, payload).value;
            && Transition(next, key, toPhase, reason, updates, payload) == Ok(next)
            && next.events == db.events
            && (next == db || (next == Moved(db, key, toPhase, reason, updates, payload) && ValidState(ApplyUpdates(db.state, toPhase, updates))))
  {
    var next := Transition(db, key, toPhase, reason, updates, payload).value;
    if next != db {
      assert Last(next.transitions).key == key;
    }
  }

  /* ---- Ingest ---- */

  lemma EnqueueTwice(db: Db, row: EventRow)
    requires Enqueue(db, row).Ok? && row.status.Pending?
    ensures Enqueue(Enqueue(db, row).value.0, row) == Enqueue(db, row)
    ensures FindEvent(Enqueue(db, row).value.0.events, row.key) == Some(Enqueue(db, row).value.1)
    ensures Enqueue(db, row).value.1.(status := Pending) == row
  {
    var (queued, stored) := Enqueue(db, row).value;
    if FindEvent(db.events, row.key).None? {
      assert Last(queued.events) == row;
    }
  }

  // With the event queued and the cycle started, a second call goes straight to the end.
  lemma JoinTwice(db: Db, e: SourceEvent, sessionCount: nat)
    requires db.state.phase.Normal? && JoinCycle(db, e, sessionCount).commits != []
    ensures var run := JoinCycle(db, e, sessionCount);
            && run.outcome.Ok? && |run.commits| == 1 && run.commits[0].events == db.events
            && JoinCycle(run.commits[0], e, sessionCount).outcome.Ok?
            && End(run.commits[0], JoinCycle(run.commits[0], e, sessionCount).commits) == run.commits[0]
  {
    var key, updates, payload := StartKey(e.cycleId, e.signal), StartUpdates(e), StartPayload(KeyOf(e), e.oldAthDate);
    TransitionTwice(db, key, WaitD40, StartSourceCycle, updates, payload);
  }

  lemma SettledOnce(db: Db, e: SourceEvent, sessionCount: nat)
    requires !db.state.phase.Normal? && JoinCycle(db, e, sessionCount).commits != []
    requires FindEvent(db.events, KeyOf(e)).Some?
    ensures var run := JoinCycle(db, e, sessionCount);
            && run.outcome.Ok? && |run.commits| == 1
            && FindEvent(run.commits[0].events, KeyOf(e)) == Some(FindEvent(db.events, KeyOf(e)).value.(status := Cancelled))
  {
    FindAfterStatus(db.events, KeyOf(e), Cancelled);
  }

  // Any call on any store, raising ones included.
  lemma IngestResumes(db: Db, e: SourceEvent, observed: nat, sessionCount: nat)
    ensures Resumes(d => Ingest(d, e, observed, sessionCount), (_: Db) => true, db)
  {
    hide Ingest;
    var op := d => Ingest(d, e, observed, sessionCount);
    var good := (_: Db) => true;
    forall k: nat ensures ResumesAt(op, good, db, StoppedAt(db, op(db), k)) {
      IngestAgain(db, e, observed, sessionCount, k);
    }
  }

  lemma EnqueueExisting(db: Db, row: EventRow, stored: EventRow)
    requires Robust.FrozenTarget(row.target) && row.target > 0
    requires FindEvent(db.events, row.key) == Some(stored) && stored.(status := row.status) == row
    ensures Enqueue(db, row) == Ok((db, stored))
  {
  }

  lemma IngestAgain(db: Db, e: SourceEvent, observed: nat, sessionCount: nat, k: nat)
    ensures var d := StoppedAt(db, Ingest(db, e, observed, sessionCount), k);
            && SameOutcome(Ingest(d, e, observed, sessionCount).outcome, Ingest(db, e, observed, sessionCount).outcome)
            && End(d, Ingest(d, e, observed, sessionCount).commits) == End(db, Ingest(db, e, observed, sessionCount).commits)
  {
    hide JoinCycle, Enqueue;
    var run := Ingest(db, e, observed, sessionCount);
    if run.commits == [] || k == 0 {
      assert StoppedAt(db, run, k) == db;
    } else {
      EnqueueTwice(db, RowOf(e));
      var (queued, row) := Enqueue(db, RowOf(e)).value;
      EnqueueExisting(queued, RowOf(e), row);
      if row.status.Applied? || row.status.Cancelled? {
        assert StoppedAt(db, run, k) == queued;
      } else {
        var join := JoinCycle(queued, e, sessionCount);
        assert run.commits == [queued] + join.commits;
        assert Ingest(queued, e, observed, sessionCount) == After([queued], join);
        if k == 1 || join.commits == [] {
          assert StoppedAt(db, run, k) == queued;
          EndAfter(queued, [queued], join.commits);
        } else {
          JoinShape(queued, e, sessionCount);
          var last := join.commits[0];
          assert StoppedAt(db, run, k) == last && End(db, run.commits) == last;
          IngestAfterJoin(queued, last, e, observed, sessionCount, row);
        }
      }
    }
  }

  lemma JoinShape(db: Db, e: SourceEvent, sessionCount: nat)
    requires JoinCycle(db, e, sessionCount).commits != [] && FindEvent(db.events, KeyOf(e)).Some?
    ensures |JoinCycle(db, e, sessionCount).commits| == 1 && JoinCycle(db, e, sessionCount).outcome.Ok?
  {
    if db.state.phase.Normal? {
      JoinTwice(db, e, sessionCount);
    } else {
      SettledOnce(db, e, sessionCount);
    }
  }

  lemma IngestAfterJoin(queued: Db, last: Db, e: SourceEvent, observed: nat, sessionCount: nat, row: EventRow)
    requires var run := Ingest(queued, e, observed, sessionCount); run.outcome.Ok? && e.kind.EntryOrScale?
    requires JoinCycle(queued, e, sessionCount).outcome.Ok? && JoinCycle(queued, e, sessionCount).commits == [last]
    requires FindEvent(queued.events, KeyOf(e)) == Some(row) && row.(status := Pending) == RowOf(e)
    requires row.status.Pending? || row.status.Matured?
    requires Robust.FrozenTarget(e.target) && e.target > 0
    ensures Ingest(last, e, observed, sessionCount).outcome.Ok?
    ensures End(last, Ingest(last, e, observed, sessionCount).commits) == last
  {
    hide JoinCycle, Enqueue;
    if queued.state.phase.Normal? {
      JoinTwice(queued, e, sessionCount);
      EnqueueExisting(last, RowOf(e), row);
    } else {
      SettledOnce(queued, e, sessionCount);
      EnqueueExisting(last, RowOf(e), row.(status := Cancelled));
    }
  }

  /* ---- Cancelling open events ---- */

  lemma {:induction false} InsertUnique(s: seq<EventRow>, x: EventRow)
    requires UniqueKeys(s) && forall i :: 0 <= i < |s| ==> s[i].key != x.key
    ensures UniqueKeys(Insert(EarlierMaturity, s, x))
  {
    if s != [] && !EarlierMaturity(Last(s), x) {
      var front := DropLast(s);
      InsertUnique(front, x);
      var r := Insert(EarlierMaturity, front, x);
      forall i | 0 <= i < |r| ensures r[i].key != Last(s).key {
        InsertMembers(EarlierMaturity, front, x, r[i]);
      }
    }
  }

  lemma {:induction false} SortUnique(s: seq<EventRow>)
    requires UniqueKeys(s)
    ensures UniqueKeys(Sort(EarlierMaturity, s))
  {
    if s != [] {
      var front := DropLast(s);
      SortUnique(front);
      var r := Sort(EarlierMaturity, front);
      forall i | 0 <= i < |r| ensures r[i].key != Last(s).key {
        SortMembers(EarlierMaturity, front, r[i]);
      }
      InsertUnique(r, Last(s));
    }
  }

  // The rows of pending_events: exactly the open ones of the cycle, each once.
  lemma PendingListed(db: Db, cycleId: Option<nat>)
    requires UniqueKeys(db.events)
    ensures Listed(db.events, PendingEvents(db, cycleId))
    ensures forall row :: row in PendingEvents(db, cycleId) <==>
              row in db.events && Open(row) && (cycleId.None? || cycleId.value == row.cycleId)
  {
    var open := OpenRows(db.events, cycleId);
    OpenRowsListed(db.events, cycleId);
    SortUnique(open);
    var rows := PendingEvents(db, cycleId);
    forall row ensures row in rows <==> row in db.events && Open(row) && (cycleId.None? || cycleId.value == row.cycleId) {
      SortMembers(EarlierMaturity, open, row);
      OpenRowsMembers(db.events, cycleId, row);
    }
    forall i | 0 <= i < |rows| ensures rows[i] in db.events && Open(rows[i]) {
      assert rows[i] in rows;
    }
  }

  // A stop inside the loop leaves the rows before it cancelled.
  lemma {:induction false} CancelStopped(db: Db, rows: seq<EventRow>, sessionCount: nat, k: nat)
    requires Listed(db.events, rows) && k <= |rows|
    ensures var run := CancelRows(db, rows, None, sessionCount);
            && |run.commits| == |rows| && run.outcome == Ok(())
            && End(db, run.commits[..k]) == db.(events := CancelAll(db.events, rows[..k]))
    decreases |rows|
  {
    CancelRowsDoes(db, rows, sessionCount);
    if rows != [] {
      var m :| 0 <= m < |db.events| && db.events[m] == rows[0];
      SetStatusAt(db, m, Cancelled);
      ListedNext(db.events, rows);
      var next := db.(events := WithStatus(db.events, rows[0].key, Cancelled));
      CancelRowsDoes(next, rows[1..], sessionCount);
      CancelStopped(next, rows[1..], sessionCount, if k > 0 then k - 1 else 0);
      var run, rest := CancelRows(db, rows, None, sessionCount), CancelRows(next, rows[1..], None, sessionCount);
      assert run.commits == [next] + rest.commits;
      if k > 0 {
        assert run.commits[..k] == [next] + rest.commits[..k - 1];
        EndAfter(db, [next], rest.commits[..k - 1]);
        assert rows[..k][1..] == rows[1..][..k - 1];
      }
    }
  }

  // The table after cancelling every open row of a cycle.
  function CancelCycle(events: seq<EventRow>, cycleId: nat): seq<EventRow> {
    seq(|events|, i requires 0 <= i < |events| =>
      if Open(events[i]) && events[i].cycleId == cycleId then events[i].(status := Cancelled) else events[i])
  }

  // Some open rows of the cycle have been cancelled, nothing else has changed.
  ghost predicate PartlyCancelled(was: seq<EventRow>, now: seq<EventRow>, cycleId: nat) {
    && |now| == |was|
    && forall m :: 0 <= m < |was| ==>
         now[m] == was[m] || (Open(was[m]) && was[m].cycleId == cycleId && now[m] == was[m].(status := Cancelled))
  }

  lemma CancelledRow(events: seq<EventRow>, rows: seq<EventRow>, m: nat)
    requires UniqueKeys(events) && m < |events| && forall row :: row in rows ==> row in events
    ensures |CancelAll(events, rows)| == |events|
    ensures CancelAll(events, rows)[m] == if events[m] in rows then events[m].(status := Cancelled) else events[m]
  {
    CancelAllAt(events, rows, m);
    if exists r :: r in rows && r.key == events[m].key {
      var r :| r in rows && r.key == events[m].key;
      var i :| 0 <= i < |events| && events[i] == r;
      assert i == m;
    }
  }

  lemma CancelLength(events: seq<EventRow>, rows: seq<EventRow>)
    ensures |CancelAll(events, rows)| == |events|
    decreases |rows|
  {
    if rows != [] {
      CancelLength(WithStatus(events, rows[0].key, Cancelled), rows[1..]);
    }
  }

  lemma CutDoes(db: Db, cycleId: nat, sessionCount: nat)
    requires UniqueKeys(db.events)
    ensures CancelOpen(db, cycleId, None, sessionCount).outcome == Ok(())
    ensures End(db, CancelOpen(db, cycleId, None, sessionCount).commits) ==
            db.(events := CancelCycle(db.events, cycleId))
  {
    var rows := PendingEvents(db, Some(cycleId));
    PendingListed(db, Some(cycleId));
    CancelRowsDoes(db, rows, sessionCount);
    CancelLength(db.events, rows);
    forall m | 0 <= m < |db.events| ensures CancelAll(db.events, rows)[m] == CancelCycle(db.events, cycleId)[m] {
      CancelledRow(db.events, rows, m);
    }
    assert CancelAll(db.events, rows) == CancelCycle(db.events, cycleId);
  }

  lemma CutStopped(db: Db, cycleId: nat, sessionCount: nat, k: nat)
    requires UniqueKeys(db.events) && k <= |CancelOpen(db, cycleId, None, sessionCount).commits|
    ensures var d := End(db, CancelOpen(db, cycleId, None, sessionCount).commits[..k]);
            d == db.(events := d.events) && PartlyCancelled(db.events, d.events, cycleId)
  {
    var rows := PendingEvents(db, Some(cycleId));
    PendingListed(db, Some(cycleId));
    CancelStopped(db, rows, sessionCount, |rows|);
    CancelStopped(db, rows, sessionCount, k);
    CancelLength(db.events, rows[..k]);
    forall m | 0 <= m < |db.events|
      ensures var now := CancelAll(db.events, rows[..k])[m];
              now == db.events[m] || (Open(db.events[m]) && db.events[m].cycleId == cycleId
                                      && now == db.events[m].(status := Cancelled))
    {
      CancelledRow(db.events, rows[..k], m);
      assert db.events[m] in rows[..k] ==> db.events[m] in rows;
    }
  }

  // Cancelling the rest gives the same table.
  lemma CutAgain(was: seq<EventRow>, now: seq<EventRow>, cycleId: nat)
    requires PartlyCancelled(was, now, cycleId)
    ensures CancelCycle(now, cycleId) == CancelCycle(was, cycleId)
    ensures UniqueKeys(was) ==> UniqueKeys(now)
  {
    forall m | 0 <= m < |was|
      ensures CancelCycle(now, cycleId)[m] == CancelCycle(was, cycleId)[m]
              && now[m].key == was[m].key
    {
    }
  }

  lemma NothingLeft(events: seq<EventRow>, cycleId: nat)
    ensures CancelCycle(CancelCycle(events, cycleId), cycleId) == CancelCycle(events, cycleId)
    ensures PartlyCancelled(events, CancelCycle(events, cycleId), cycleId)
  {
  }

  /* ---- Observe ---- */

  ghost predicate Keyed(db: Db) {
    UniqueKeys(db.events)
  }

  // Any call on any store with unique event keys, raising ones included.
  lemma ObserveResumes(db: Db, session: nat, close: real, sessionCount: nat)
    ensures Resumes(d => ObserveClose(d, session, close, sessionCount), d => Keyed(d), db)
  {
    hide ObserveClose;
    var op := d => ObserveClose(d, session, close, sessionCount);
    var good := d => Keyed(d);
    if good(db) {
      forall k: nat ensures ResumesAt(op, good, db, StoppedAt(db, op(db), k)) {
        ObserveAgain(db, session, close, sessionCount, k);
      }
    }
  }

  lemma ObserveAgain(db: Db, session: nat, close: real, sessionCount: nat, k: nat)
    requires Keyed(db)
    ensures var run := ObserveClose(db, session, close, sessionCount);
            var d := StoppedAt(db, run, k);
            && Keyed(d) && SameOutcome(ObserveClose(d, session, close, sessionCount).outcome, run.outcome)
            && End(d, ObserveClose(d, session, close, sessionCount).commits) == End(db, run.commits)
  {
    hide CancelOpen, Transition, UniqueKeys;
    var s := db.state;
    var run := ObserveClose(db, session, close, sessionCount);
    if run.commits == [] || k == 0 {
      assert StoppedAt(db, run, k) == db;
    } else if s.phase.WaitD40? {
      WaitingObserve(db, session, close, sessionCount, k);
    } else {
      assert |run.commits| == 1 && StoppedAt(db, run, k) == run.commits[0];
      if s.phase.RecoveryActive? {
        TransitionTwice(db, RecoveredKey(CycleOf(s), session), RecoveryActive, OldAthWhileActive,
                        NO_UPDATES.(recovered := Set(true)), NoPayload);
      } else {
        TransitionTwice(db, RearmKey(CycleOf(s), session), Normal, RearmAfterOldAth, CLEAR_CYCLE, NoPayload);
      }
    }
  }

  // What the close that cancels does: the cut, and then the transition if it is accepted.
  lemma CancellingClose(db: Db, session: nat, close: real, sessionCount: nat)
    requires Keyed(db) && db.state.phase.WaitD40? && db.state.oldAth.Some? && close > 0.0 && close + TOL >= db.state.oldAth.value
    ensures var run, id := ObserveClose(db, session, close, sessionCount), CycleOf(db.state);
            var cut, cleared := CancelOpen(db, id, None, sessionCount).commits, db.(events := CancelCycle(db.events, id));
            var moved := Transition(cleared, CancelKey(id, session), Normal, OldAthBeforeFirstEntry, CLEAR_CYCLE, NoPayload);
            && End(db, cut) == cleared
            && run.commits == cut + (if moved.Ok? then [moved.value] else [])
            && run.outcome == (if moved.Ok? then Ok(CancelledBeforeFirstEntry) else Err(moved.error))
            && End(db, run.commits) == if moved.Ok? then moved.value else cleared
  {
    hide CancelOpen, Transition, UniqueKeys, CancelCycle;
    CutDoes(db, CycleOf(db.state), sessionCount);
  }

  lemma WaitingObserve(db: Db, session: nat, close: real, sessionCount: nat, k: nat)
    requires Keyed(db) && db.state.phase.WaitD40? && ObserveClose(db, session, close, sessionCount).commits != []
    ensures var run := ObserveClose(db, session, close, sessionCount);
            var d := StoppedAt(db, run, k);
            && Keyed(d) && SameOutcome(ObserveClose(d, session, close, sessionCount).outcome, run.outcome)
            && End(d, ObserveClose(d, session, close, sessionCount).commits) == End(db, run.commits)
  {
    hide CancelOpen, Transition, UniqueKeys, CancelCycle, PartlyCancelled;
    var run, id := ObserveClose(db, session, close, sessionCount), CycleOf(db.state);
    var cut := CancelOpen(db, id, None, sessionCount).commits;
    CancellingClose(db, session, close, sessionCount);
    NothingLeft(db.events, id);
    CutAgain(db.events, CancelCycle(db.events, id), id);
    var d := StoppedAt(db, run, k);
    if k <= |cut| || |run.commits| == |cut| {
      var k' := if k <= |cut| then k else |cut|;
      assert d == End(db, cut[..k']) by {
        assert run.commits[..k'] == cut[..k'];
        assert run.commits[..|run.commits|] == run.commits;
      }
      CutStopped(db, id, sessionCount, k');
      CutAgain(db.events, d.events, id);
      CancellingClose(d, session, close, sessionCount);
    } else {
      var cleared := db.(events := CancelCycle(db.events, id));
      TransitionTwice(cleared, CancelKey(id, session), Normal, OldAthBeforeFirstEntry, CLEAR_CYCLE, NoPayload);
      assert d == Last(run.commits) by {
        assert run.commits[..|run.commits|] == run.commits;
      }
      if d == cleared {
        CancellingClose(d, session, close, sessionCount);
      }
    }
  }
}
