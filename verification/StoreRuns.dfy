// What every run of recovery-store transactions keeps: the two journals tile the revisions,
// transition rows chain through the phases, reserve rows chain through the balances, keys
// are unique, and the balance follows the accepted amounts up to the clamp at zero.
module StoreRuns {
  import opened Common
  import opened RecoveryTables

  datatype StoreOp =
    | TransitionOp(key: TransitionKey, toPhase: Phase, reason: Reason, updates: Updates, payload: TransitionPayload)
    | EnqueueOp(row: EventRow)
    | StatusOp(source: SourceKey, toStatus: EventStatus)
    | ReserveOp(entry: nat, amount: real, note: nat)

  // One transaction; an error rolls it back.
  function Apply(db: Db, op: StoreOp): Db {
    match op
    case TransitionOp(key, toPhase, reason, updates, payload) =>
      (match Transition(db, key, toPhase, reason, updates, payload) case Ok(next) => next case Err(_) => db)
    case EnqueueOp(row) =>
      (match Enqueue(db, row) case Ok((next, _)) => next case Err(_) => db)
    case StatusOp(source, toStatus) =>
      (match SetStatus(db, source, toStatus) case Ok(next) => next case Err(_) => db)
    case ReserveOp(entry, amount, note) =>
      (match ReserveEvent(db, entry, amount, note) case Ok(next) => next case Err(_) => db)
  }

  function RunOps(db: Db, ops: seq<StoreOp>): Db {
    if ops == [] then db else Apply(RunOps(db, DropLast(ops)), Last(ops))
  }

  /* ---- Tiling ---- */

  // The revision a row moved the machine from, over both journals.
  ghost predicate Covers(db: Db, revision: int) {
    (exists i :: 0 <= i < |db.transitions| && db.transitions[i].before == revision)
    || (exists i :: 0 <= i < |db.reserves| && db.reserves[i].before == revision)
  }

  ghost predicate Tiled(db: Db) {
    && db.state.revision == 1 + |db.transitions| + |db.reserves|
    && (forall i :: 0 <= i < |db.transitions| ==>
          db.transitions[i].after == db.transitions[i].before + 1 && 1 <= db.transitions[i].before < db.state.revision)
    && (forall i :: 0 <= i < |db.reserves| ==>
          db.reserves[i].after == db.reserves[i].before + 1 && 1 <= db.reserves[i].before < db.state.revision)
    && (forall i, j :: 0 <= i < j < |db.transitions| ==> db.transitions[i].before < db.transitions[j].before)
    && (forall i, j :: 0 <= i < j < |db.reserves| ==> db.reserves[i].before < db.reserves[j].before)
    && (forall i, j :: 0 <= i < |db.transitions| && 0 <= j < |db.reserves| ==> db.transitions[i].before != db.reserves[j].before)
    && (forall r :: 1 <= r < db.state.revision ==> Covers(db, r))
  }

  // Transition rows lead from NORMAL to the present phase; reserve rows from the starting
  // balance to the present one.
  ghost predicate Chained(db: Db, start: real) {
    && db.state.phase == (if db.transitions == [] then Normal else Last(db.transitions).toPhase)
    && (db.transitions != [] ==> db.transitions[0].fromPhase.Normal?)
    && (forall i :: 0 < i < |db.transitions| ==> db.transitions[i].fromPhase == db.transitions[i - 1].toPhase)
    && (forall i :: 0 <= i < |db.transitions| ==> AllowedPhase(db.transitions[i].fromPhase, db.transitions[i].toPhase))
    && db.state.reserve == (if db.reserves == [] then start else Last(db.reserves).balanceAfter)
    && (db.reserves != [] ==> db.reserves[0].balanceBefore == start)
    && (forall i :: 0 < i < |db.reserves| ==> db.reserves[i].balanceBefore == db.reserves[i - 1].balanceAfter)
  }

  ghost predicate DistinctKeys(db: Db) {
    && (forall i, j :: 0 <= i < j < |db.transitions| ==> db.transitions[i].key != db.transitions[j].key)
    && (forall i, j :: 0 <= i < j < |db.events| ==> db.events[i].key != db.events[j].key)
    && (forall i, j :: 0 <= i < j < |db.reserves| ==> db.reserves[i].key != db.reserves[j].key)
  }

  function Amounts(rows: seq<ReserveRow>): real {
    if rows == [] then 0.0 else Amounts(DropLast(rows)) + Last(rows).amount
  }

  // The balance is the start plus the accepted amounts, plus at most the tolerance per event.
  ghost predicate Balanced(db: Db, start: real) {
    && 0.0 <= db.state.reserve
    && start + Amounts(db.reserves) <= db.state.reserve <= start + Amounts(db.reserves) + (|db.reserves| as real) * TOL
  }

  lemma CoversMore(db: Db, next: Db, r: int)
    requires Covers(db, r)
    requires |db.transitions| <= |next.transitions| && next.transitions[..|db.transitions|] == db.transitions
    requires |db.reserves| <= |next.reserves| && next.reserves[..|db.reserves|] == db.reserves
    ensures Covers(next, r)
  {
    if i :| 0 <= i < |db.transitions| && db.transitions[i].before == r {
      assert next.transitions[i] == db.transitions[i];
    } else {
      var i :| 0 <= i < |db.reserves| && db.reserves[i].before == r;
      assert next.reserves[i] == db.reserves[i];
    }
  }

  lemma TransitionTiles(db: Db, row: TransitionRow, next: Db)
    requires Tiled(db) && row.before == db.state.revision && row.after == db.state.revision + 1
    requires next.transitions == db.transitions + [row] && next.reserves == db.reserves
    requires next.state.revision == db.state.revision + 1
    ensures Tiled(next)
  {
    forall r | 1 <= r < next.state.revision ensures Covers(next, r) {
      if r < db.state.revision {
        CoversMore(db, next, r);
      } else {
        assert next.transitions[|db.transitions|].before == r;
      }
    }
  }

  lemma ReserveTiles(db: Db, row: ReserveRow, next: Db)
    requires Tiled(db) && row.before == db.state.revision && row.after == db.state.revision + 1
    requires next.transitions == db.transitions && next.reserves == db.reserves + [row]
    requires next.state.revision == db.state.revision + 1
    ensures Tiled(next)
  {
    forall r | 1 <= r < next.state.revision ensures Covers(next, r) {
      if r < db.state.revision {
        CoversMore(db, next, r);
      } else {
        assert next.reserves[|db.reserves|].before == r;
      }
    }
  }

  // What one transaction does to the three journals.
  lemma ApplyShape(db: Db, op: StoreOp)
    ensures var next := Apply(db, op);
            || (next.state == db.state && next.transitions == db.transitions && next.reserves == db.reserves)
            || (&& next.reserves == db.reserves && next.events == db.events && next.state.reserve == db.state.reserve
                && |next.transitions| == |db.transitions| + 1 && next.transitions[..|db.transitions|] == db.transitions
                && var row := Last(next.transitions);
                   && row.before == db.state.revision && row.after == row.before + 1 == next.state.revision
                   && row.fromPhase == db.state.phase && row.toPhase == next.state.phase
                   && AllowedPhase(row.fromPhase, row.toPhase)
                   && FindTransition(db.transitions, row.key).None?)
            || (&& next.transitions == db.transitions && next.events == db.events && next.state.phase == db.state.phase
                && |next.reserves| == |db.reserves| + 1 && next.reserves[..|db.reserves|] == db.reserves
                && var row := Last(next.reserves);
                   && row.before == db.state.revision && row.after == row.before + 1 == next.state.revision
                   && row.balanceBefore == db.state.reserve && row.balanceAfter == next.state.reserve
                   && (if db.state.reserve + row.amount >= 0.0 then next.state.reserve == db.state.reserve + row.amount
                       else db.state.reserve + row.amount >= -TOL && next.state.reserve == 0.0)
                   && FindReserve(db.reserves, row.key).None?)
  {
    hide ValidState, FindTransition, FindReserve, FindEvent;
  }

  lemma ApplyTiled(db: Db, op: StoreOp)
    requires Tiled(db)
    ensures Tiled(Apply(db, op))
  {
    hide Apply, Tiled;
    ApplyShape(db, op);
    var next := Apply(db, op);
    if |next.transitions| > |db.transitions| {
      assert next.transitions == db.transitions + [Last(next.transitions)];
      TransitionTiles(db, Last(next.transitions), next);
    } else if |next.reserves| > |db.reserves| {
      assert next.reserves == db.reserves + [Last(next.reserves)];
      ReserveTiles(db, Last(next.reserves), next);
    } else {
      SameTiles(db, next);
    }
  }

  lemma SameTiles(db: Db, next: Db)
    requires Tiled(db) && next.state == db.state && next.transitions == db.transitions && next.reserves == db.reserves
    ensures Tiled(next)
  {
    forall r | 1 <= r < next.state.revision ensures Covers(next, r) {
      CoversMore(db, next, r);
    }
  }

  lemma ApplyChained(db: Db, op: StoreOp, start: real)
    requires Chained(db, start)
    ensures Chained(Apply(db, op), start)
  {
    hide Apply, FindTransition, FindReserve;
    ApplyShape(db, op);
    var next := Apply(db, op);
    if |next.transitions| > |db.transitions| {
      assert next.transitions == db.transitions + [Last(next.transitions)];
    } else if |next.reserves| > |db.reserves| {
      assert next.reserves == db.reserves + [Last(next.reserves)];
    }
  }

  lemma ApplyBalanced(db: Db, op: StoreOp, start: real)
    requires Balanced(db, start)
    ensures Balanced(Apply(db, op), start)
  {
    hide Apply, FindTransition, FindReserve;
    ApplyShape(db, op);
    var next := Apply(db, op);
    if |next.reserves| > |db.reserves| {
      assert DropLast(next.reserves) == db.reserves;
      assert (|next.reserves| as real) * TOL == (|db.reserves| as real) * TOL + TOL;
    }
  }

  lemma ApplyKeys(db: Db, op: StoreOp)
    requires DistinctKeys(db)
    ensures DistinctKeys(Apply(db, op))
  {
    hide ValidState;
  }

  // Every run of transactions, with errors and replays anywhere in it.
  lemma {:induction false} EveryRunKeeps(start: real, ops: seq<StoreOp>)
    requires start >= 0.0
    ensures var db := RunOps(InitialDb(start), ops);
            Tiled(db) && Chained(db, start) && DistinctKeys(db) && Balanced(db, start)
  {
    hide Apply;
    if ops != [] {
      EveryRunKeeps(start, DropLast(ops));
      var db := RunOps(InitialDb(start), DropLast(ops));
      ApplyTiled(db, Last(ops));
      ApplyChained(db, Last(ops), start);
      ApplyKeys(db, Last(ops));
      ApplyBalanced(db, Last(ops), start);
    }
  }

  // A transaction repeated at once, or later in the run, changes nothing: the reserve event
  // is recognised by its key whatever has happened since.
  lemma {:induction false} ReserveReplayedLater(db: Db, ops: seq<StoreOp>, entry: nat, amount: real, note: nat)
    requires ReserveEvent(db, entry, amount, note).Ok?
    ensures var later := RunOps(ReserveEvent(db, entry, amount, note).value, ops);
            ReserveEvent(later, entry, amount, note) == Ok(later)
  {
    var after := ReserveEvent(db, entry, amount, note).value;
    ReserveStays(after, ops, entry);
    if FindReserve(db.reserves, entry).None? {
      assert Last(after.reserves) == ReserveRow(entry, amount, note, db.state.reserve, after.state.reserve, db.state.revision, after.state.revision);
    }
  }

  lemma {:induction false} ReserveStays(db: Db, ops: seq<StoreOp>, entry: nat)
    requires FindReserve(db.reserves, entry).Some?
    ensures FindReserve(RunOps(db, ops).reserves, entry) == FindReserve(db.reserves, entry)
  {
    hide Apply;
    if ops != [] {
      ReserveStays(db, DropLast(ops), entry);
      var before := RunOps(db, DropLast(ops));
      ApplyShape(before, Last(ops));
      var next := Apply(before, Last(ops));
      if |next.reserves| > |before.reserves| {
        assert DropLast(next.reserves) == before.reserves;
      }
    }
  }

  // When a reserve event is accepted, and what it then says.  An event no larger than the tolerance
  // never is.  The first of its key is exactly if it leaves no less than zero, within the tolerance;
  // it moves the reserve by its amount, and what would be left below zero is zero.  A later one of
  // the key is exactly if it repeats the amount, within the tolerance, and the reason; it changes
  // nothing.
  lemma ReserveAnswers(db: Db, entry: nat, amount: real, note: nat)
    requires ValidState(db.state) && forall i, j :: 0 <= i < j < |db.reserves| ==> db.reserves[i].key != db.reserves[j].key
    ensures var r, left := ReserveEvent(db, entry, amount, note), db.state.reserve + amount;
            && (r == Err(ZeroReserveEvent) <==> -TOL <= amount <= TOL)
            && (r == Err(ReserveOverdraw) <==>
                  !(-TOL <= amount <= TOL) && (forall row :: row in db.reserves ==> row.key != entry) && left < -TOL)
            && (r == Err(ConflictingReplay) <==>
                  !(-TOL <= amount <= TOL) &&
                  exists row :: row in db.reserves && row.key == entry && !(-TOL <= row.amount - amount <= TOL && row.reason == note))
            && (r.Err? ==> r.error.ZeroReserveEvent? || r.error.ReserveOverdraw? || r.error.ConflictingReplay?)
            && (r.Ok? ==>
                  if exists row :: row in db.reserves && row.key == entry then r.value == db
                  else
                    && r.value.state == db.state.(reserve := if left < 0.0 then 0.0 else left, revision := db.state.revision + 1)
                    && r.value.reserves == db.reserves +
                       [ReserveRow(entry, amount, note, db.state.reserve, r.value.state.reserve, db.state.revision, db.state.revision + 1)]
                    && r.value.events == db.events && r.value.transitions == db.transitions)
  {
    match FindReserve(db.reserves, entry)
    case Some(found) =>
      forall row | row in db.reserves && row.key == entry ensures row == found {
        var i :| 0 <= i < |db.reserves| && db.reserves[i] == row;
        var j :| 0 <= j < |db.reserves| && db.reserves[j] == found;
      }
    case None =>
      forall row | row in db.reserves ensures row.key != entry {
        var i :| 0 <= i < |db.reserves| && db.reserves[i] == row;
      }
  }
}
