// What any run of transactions on the recovery store does to the delayed events and to the sleeve,
// and exactly which transactions the store accepts.
module StoreLife {
  import opened Common
  import opened RecoveryTables
  import opened StoreRuns

  /* ---- Runs ---- */

  // An event waits, matures and is applied, or is cancelled before that; then it rests.
  ghost predicate Ages(a: EventStatus, b: EventStatus) {
    a == b || a.Pending? || (a.Matured? && (b.Applied? || b.Cancelled?))
  }

  // No event and no row of a journal is lost or rewritten, but for the status of an event.
  ghost predicate LivesOn(db: Db, later: Db) {
    && |db.events| <= |later.events|
    && (forall i :: 0 <= i < |db.events| ==>
          later.events[i] == db.events[i].(status := later.events[i].status) && Ages(db.events[i].status, later.events[i].status))
    && db.transitions <= later.transitions && db.reserves <= later.reserves
  }

  lemma OneLivesOn(db: Db, op: StoreOp)
    requires DistinctKeys(db)
    ensures LivesOn(db, Apply(db, op))
  {
    hide ValidState, FindTransition, FindReserve;
  }

  lemma {:induction false} EveryRunLivesOn(db: Db, ops: seq<StoreOp>)
    requires DistinctKeys(db)
    ensures DistinctKeys(RunOps(db, ops)) && LivesOn(db, RunOps(db, ops))
  {
    hide Apply, DistinctKeys;
    if ops != [] {
      EveryRunLivesOn(db, DropLast(ops));
      ApplyKeys(RunOps(db, DropLast(ops)), Last(ops));
      OneLivesOn(RunOps(db, DropLast(ops)), Last(ops));
    }
  }

  // While a cycle stays active its target never falls and its clock never moves.
  ghost predicate Held(s: RecoveryState, later: RecoveryState) {
    later.target >= s.target && later.firstEntry == s.firstEntry && later.fixedExit == s.fixedExit
  }

  lemma {:induction false} ActiveRunHolds(db: Db, ops: seq<StoreOp>)
    requires forall k :: 0 <= k <= |ops| ==> RunOps(db, ops[..k]).state.phase.RecoveryActive?
    ensures Held(db.state, RunOps(db, ops).state)
  {
    hide Apply;
    if ops != [] {
      var front := DropLast(ops);
      forall k | 0 <= k <= |front| ensures RunOps(db, front[..k]).state.phase.RecoveryActive? {
        assert front[..k] == ops[..k];
      }
      ActiveRunHolds(db, front);
      assert ops[..|front|] == front && ops[..|ops|] == ops;
      OneHolds(RunOps(db, front), Last(ops));
    }
  }

  lemma OneHolds(db: Db, op: StoreOp)
    requires db.state.phase.RecoveryActive? && Apply(db, op).state.phase.RecoveryActive?
    ensures Held(db.state, Apply(db, op).state)
  {
    hide ValidState, FindTransition, FindReserve, FindEvent, WithStatus;
  }

  // Every state of every run is in shape, field by field.
  ghost predicate InShape(s: RecoveryState) {
    && s.revision >= 1 && s.reserve >= -TOL && s.target in {0, 10, 30, 60, 100}
    && (s.target > 0 <==> s.phase.RecoveryActive?)
    && (s.cycleId.Some? <==> !s.phase.Normal?) && (s.oldAth.Some? <==> !s.phase.Normal?)
    && (s.oldAth.Some? ==> s.oldAth.value > 0.0)
    && (s.firstEntry.Some? <==> s.phase.RecoveryActive? || s.phase.OldAthGuard?)
    && (s.fixedExit.Some? <==> s.phase.RecoveryActive? || s.phase.OldAthGuard?)
    && (s.phase.Normal? ==> !s.recovered)
  }

  lemma ValidIs(s: RecoveryState)
    ensures ValidState(s) <==> InShape(s)
  {
  }

  lemma {:induction false} EveryRunInShape(db: Db, ops: seq<StoreOp>)
    requires InShape(db.state)
    ensures InShape(RunOps(db, ops).state)
  {
    hide Apply, InShape;
    if ops != [] {
      EveryRunInShape(db, DropLast(ops));
      OneInShape(RunOps(db, DropLast(ops)), Last(ops));
    }
  }

  lemma OneInShape(db: Db, op: StoreOp)
    requires InShape(db.state)
    ensures InShape(Apply(db, op).state)
  {
    hide FindTransition, FindReserve, FindEvent, WithStatus, InShape, ValidState;
    var next := Apply(db, op);
    ValidIs(db.state);
    ShapeRevision(db.state);
    if next.state != db.state {
      ValidIs(next.state.(revision := db.state.revision));
      MoreRevisions(next.state.(revision := db.state.revision), next.state.revision);
    }
  }

  lemma MoreRevisions(s: RecoveryState, revision: int)
    requires InShape(s) && revision >= 1
    ensures InShape(s.(revision := revision))
  {
  }

  /* ---- What is accepted ---- */

  ghost predicate Kept<T>(f: Field<T>, was: T, now: T) {
    now == if f.Set? then f.value else was
  }

  // The state with these fields patched.
  ghost predicate Patched(s: RecoveryState, toPhase: Phase, u: Updates, next: RecoveryState) {
    && next.phase == toPhase && next.revision == s.revision + 1 && next.reserve == s.reserve
    && Kept(u.cycleId, s.cycleId, next.cycleId) && Kept(u.oldAth, s.oldAth, next.oldAth) && Kept(u.target, s.target, next.target)
    && Kept(u.firstEntry, s.firstEntry, next.firstEntry) && Kept(u.fixedExit, s.fixedExit, next.fixedExit)
    && Kept(u.recovered, s.recovered, next.recovered)
  }

  // The arcs of the machine: a cycle waits, enters, holds, exits, and returns to NORMAL, or is dropped
  // while it waits.
  ghost predicate Arc(a: Phase, b: Phase) {
    (a, b) in {(Normal, WaitD40), (WaitD40, WaitD40), (WaitD40, RecoveryActive), (WaitD40, Normal),
               (RecoveryActive, RecoveryActive), (RecoveryActive, OldAthGuard), (OldAthGuard, Normal)}
  }

  ghost predicate IsJournaled(db: Db, key: TransitionKey) {
    exists row :: row in db.transitions && row.key == key
  }

  // A transition under a new key is accepted iff it follows an arc, leaves the state in shape, and
  // while the cycle is active neither lowers the target nor moves the clock; then the state is patched
  // and one row journaled.  Under a journaled key it is accepted iff the row says the same, and
  // changes nothing.
  lemma TransitionAnswers(db: Db, key: TransitionKey, toPhase: Phase, reason: Reason, updates: Updates, payload: TransitionPayload, next: RecoveryState)
    requires InShape(db.state) && DistinctKeys(db) && Patched(db.state, toPhase, updates, next)
    ensures var r := Transition(db, key, toPhase, reason, updates, payload);
            && (r.Ok? <==>
                  if IsJournaled(db, key) then Says(db, key, toPhase, reason, updates, payload)
                  else Arc(db.state.phase, toPhase) && InShape(next)
                       && (db.state.phase.RecoveryActive? && toPhase.RecoveryActive? ==> Held(db.state, next)))
            && (r.Ok? ==>
                  && r.value.events == db.events && r.value.reserves == db.reserves
                  && if IsJournaled(db, key) then r.value == db
                     else r.value.state == next &&
                          r.value.transitions == db.transitions +
                            [TransitionRow(key, db.state.revision, next.revision, db.state.phase, toPhase, reason, updates, payload)])
  {
    hide InShape, DistinctKeys, IsJournaled, Says, Transition;
    JournaledIs(db, key, toPhase, reason, updates, payload);
    if FindTransition(db.transitions, key).Some? {
      ReplayAnswers(db, key, toPhase, reason, updates, payload);
    } else {
      FreshAnswers(db, key, toPhase, reason, updates, payload, next);
    }
  }

  // The row of the key says the same.
  ghost predicate Says(db: Db, key: TransitionKey, toPhase: Phase, reason: Reason, updates: Updates, payload: TransitionPayload) {
    exists row :: row in db.transitions && row.key == key
      && row.toPhase == toPhase && row.reason == reason && row.updates == updates && row.payload == payload
  }

  lemma JournaledIs(db: Db, key: TransitionKey, toPhase: Phase, reason: Reason, updates: Updates, payload: TransitionPayload)
    requires DistinctKeys(db)
    ensures var found := FindTransition(db.transitions, key);
            && (IsJournaled(db, key) <==> found.Some?)
            && (found.Some? ==>
                  var row := found.value;
                  (Says(db, key, toPhase, reason, updates, payload) <==>
                   row.toPhase == toPhase && row.reason == reason && row.updates == updates && row.payload == payload))
  {
    if FindTransition(db.transitions, key).Some? {
      var found := FindTransition(db.transitions, key).value;
      forall row | row in db.transitions && row.key == key ensures row == found {
        var i :| 0 <= i < |db.transitions| && db.transitions[i] == row;
        var j :| 0 <= j < |db.transitions| && db.transitions[j] == found;
      }
    }
  }

  lemma ReplayAnswers(db: Db, key: TransitionKey, toPhase: Phase, reason: Reason, updates: Updates, payload: TransitionPayload)
    requires FindTransition(db.transitions, key).Some?
    ensures var row, r := FindTransition(db.transitions, key).value, Transition(db, key, toPhase, reason, updates, payload);
            && (r.Ok? <==> row.toPhase == toPhase && row.reason == reason && row.updates == updates && row.payload == payload)
            && (r.Ok? ==> r.value == db)
  {
    hide ValidState, ApplyUpdates, FindTransition;
  }

  lemma FreshAnswers(db: Db, key: TransitionKey, toPhase: Phase, reason: Reason, updates: Updates, payload: TransitionPayload, next: RecoveryState)
    requires InShape(db.state) && Patched(db.state, toPhase, updates, next) && FindTransition(db.transitions, key).None?
    ensures var r := Transition(db, key, toPhase, reason, updates, payload);
            && (r.Ok? <==>
                  && Arc(db.state.phase, toPhase) && InShape(next)
                  && (db.state.phase.RecoveryActive? && toPhase.RecoveryActive? ==> Held(db.state, next)))
            && (r.Ok? ==>
                  r.value == db.(state := next, transitions := db.transitions +
                    [TransitionRow(key, db.state.revision, next.revision, db.state.phase, toPhase, reason, updates, payload)]))
  {
    hide ValidState, InShape, FindTransition;
    var target := ApplyUpdates(db.state, toPhase, updates);
    assert next == target.(revision := next.revision);
    ValidIs(target);
    ShapeRevision(db.state);
    SameShape(target, next.revision);
    ArcIs(db.state.phase, toPhase);
    hide Arc, AllowedPhase;
  }

  lemma ArcIs(a: Phase, b: Phase)
    ensures AllowedPhase(a, b) <==> Arc(a, b)
  {
  }

  lemma ShapeRevision(s: RecoveryState)
    requires InShape(s)
    ensures s.revision >= 1
  {
  }

  lemma SameShape(s: RecoveryState, revision: int)
    requires s.revision >= 1 && revision >= 1
    ensures InShape(s) <==> InShape(s.(revision := revision))
  {
  }

  ghost predicate Queued(db: Db, key: SourceKey, row: EventRow) {
    row in db.events && row.key == key
  }

  // An event is queued once, as PENDING, iff its target is a positive rung; one queued before is
  // accepted again iff it says the same but for its status, which is read back.
  lemma EnqueueAnswers(db: Db, row: EventRow)
    requires DistinctKeys(db)
    ensures var r := Enqueue(db, row);
            && (r.Ok? <==> row.target in {10, 30, 60, 100}
                           && forall was :: Queued(db, row.key, was) ==> was == row.(status := was.status))
            && (r.Ok? ==>
                  if exists was :: Queued(db, row.key, was) then r.value.0 == db && Queued(db, row.key, r.value.1)
                  else r.value == (db.(events := db.events + [row.(status := Pending)]), row.(status := Pending)))
  {
    match FindEvent(db.events, row.key)
    case None => assert forall was :: !Queued(db, row.key, was);
    case Some(found) =>
      forall was | Queued(db, row.key, was) ensures was == found {
        var i :| 0 <= i < |db.events| && db.events[i] == was;
        var j :| 0 <= j < |db.events| && db.events[j] == found;
      }
      assert Queued(db, row.key, found);
  }

  ghost predicate NextInLife(a: EventStatus, b: EventStatus) {
    a == b || (a, b) in {(Pending, Matured), (Pending, Cancelled), (Matured, Applied), (Matured, Cancelled)}
  }

  // A status is set iff it is that of the event, or the next of its life; no other event changes.
  lemma StatusAnswers(db: Db, key: SourceKey, toStatus: EventStatus)
    requires DistinctKeys(db)
    ensures var r := SetStatus(db, key, toStatus);
            && (r.Ok? <==> exists row :: Queued(db, key, row) && NextInLife(row.status, toStatus))
            && (r.Ok? ==>
                  && r.value == db.(events := r.value.events) && |r.value.events| == |db.events|
                  && forall i :: 0 <= i < |db.events| ==>
                       r.value.events[i] == if db.events[i].key == key then db.events[i].(status := toStatus) else db.events[i])
  {
    match FindEvent(db.events, key)
    case None => assert forall row :: !Queued(db, key, row);
    case Some(found) =>
      forall row | Queued(db, key, row) ensures row == found {
        var i :| 0 <= i < |db.events| && db.events[i] == row;
        var j :| 0 <= j < |db.events| && db.events[j] == found;
      }
      assert Queued(db, key, found);
  }
}
