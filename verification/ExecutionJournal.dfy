// The execution journal over whole runs: every revision beyond the first is one journal row
// or one ledger row, and the EXECUTION rows chain from IDLE to the present state.
module ExecutionJournal {
  import opened Common
  import opened Capital
  import opened ExecutionTables
  import opened Executor
  import opened ExecutionSteps
  import opened ExecutionInvariant
  import opened ExecutionKeeps
  import opened ExecutionEffects
  import opened PostOrder
  import opened CycleSteps
  import opened CycleRuns

  // The execution state the rows lead to.
  function StateAfter(rows: seq<Row>): ExecState {
    if rows == [] then Idle
    else if Last(rows).ExecRow? then Last(rows).toState
    else StateAfter(DropLast(rows))
  }

  // Rows in revision order, each one revision long, EXECUTION rows joined end to end.
  ghost predicate Chain(rows: seq<Row>) {
    rows != [] ==>
      && Chain(DropLast(rows))
      && Last(rows).after == Last(rows).before + 1
      && (|rows| > 1 ==> rows[|rows| - 2].after <= Last(rows).before)
      && (Last(rows).ExecRow? ==> Last(rows).fromState == StateAfter(DropLast(rows)) && Last(rows).fromState != Last(rows).toState)
  }

  ghost predicate Journaled(db: Db, first: int) {
    && db.machine.account.revision == first + |db.journal| + |db.ledger|
    && Chain(db.journal)
    && (db.journal != [] ==> first <= db.journal[0].before && Last(db.journal).after <= db.machine.account.revision)
    && StateAfter(db.journal) == db.machine.exec
    && DistinctFills(db.ledger) && DistinctRows(db.journal)
  }

  ghost predicate SameLog(db: Db, next: Db) {
    && next.machine.account.revision == db.machine.account.revision && next.machine.exec == db.machine.exec
    && next.journal == db.journal && next.ledger == db.ledger
  }

  // One more row.
  ghost predicate OneRow(db: Db, next: Db) {
    && next.ledger == db.ledger
    && |next.journal| == |db.journal| + 1 && next.journal[..|db.journal|] == db.journal
    && var row := Last(next.journal);
       && row.before == db.machine.account.revision && row.after == row.before + 1 == next.machine.account.revision
       && FindRow(db.journal, row.key).None?
       && (if row.ExecRow? then row.fromState == db.machine.exec && row.toState == next.machine.exec && row.fromState != row.toState
           else next.machine.exec == db.machine.exec)
  }

  ghost predicate OneFill(db: Db, next: Db) {
    && next.journal == db.journal && next.machine.exec == db.machine.exec
    && next.machine.account.revision == db.machine.account.revision + 1
    && |next.ledger| == |db.ledger| + 1 && next.ledger[..|db.ledger|] == db.ledger
    && FindFill(db.ledger, Last(next.ledger).event.key).None?
  }

  ghost predicate Logged(db: Db, next: Db) {
    SameLog(db, next) || OneRow(db, next) || OneFill(db, next)
  }

  lemma MoveLogs(db: Db, id: nat, w: Workflow, suffix: Suffix, to: ExecState)
    requires MoveAndCommit(Put(db, id, w), id, suffix, to).Ok?
    ensures Logged(db, MoveAndCommit(Put(db, id, w), id, suffix, to).value)
  {
    hide ValidMachine;
  }

  lemma StepLogs(w: World, next: World, k: Kind)
    requires Takes(w, next, k)
    ensures Logged(w.db, next.db)
  {
    hide Takes, Rewriting, MoveAndCommit, Logged;
    if Rewriting(w.db, k).Some? {
      RewriteIs(w, next, k);
      var r := Rewriting(w.db, k).value;
      MoveLogs(w.db, r.id, r.record, r.suffix, r.to);
    } else if k.Intending? || k.Accepting? {
      LegEffect(w, next, k);
      SameLogs(w.db, next.db);
    } else {
      OtherLogs(w, next, k);
    }
  }

  lemma OtherLogs(w: World, next: World, k: Kind)
    requires Takes(w, next, k) && Rewriting(w.db, k).None? && !k.Intending? && !k.Accepting?
    ensures Logged(w.db, next.db)
  {
    hide MoveAndCommit, Covers, FindRow, ValidMachine, FindFill, Logged;
    if k.Filling? {
      FillLogs(w.db, next.db, k.event, w.db.workflows[k.id].plan.decision);
    } else if k.Controlling? {
      ControlLogs(w.db, next.db, k.c);
    } else {
      SameLogs(w.db, next.db);
    }
  }

  lemma SameLogs(db: Db, next: Db)
    requires SameLog(db, next)
    ensures Logged(db, next)
  {
  }

  lemma FillLogs(db: Db, next: Db, event: FillEvent, decision: nat)
    requires ApplyFillEvent(db, event, decision) == Ok(next)
    ensures Logged(db, next)
  {
    hide FindFill;
  }

  lemma ControlLogs(db: Db, next: Db, c: Control)
    requires c.key.ControlKey? && ControlTransition(db, c) == Ok(next)
    ensures Logged(db, next)
  {
    hide FindRow, ValidMachine;
  }

  lemma LoggedKeeps(db: Db, next: Db, first: int)
    requires Journaled(db, first) && Logged(db, next)
    ensures Journaled(next, first)
  {
    if OneRow(db, next) {
      assert DropLast(next.journal) == db.journal;
    } else if OneFill(db, next) {
      assert DropLast(next.ledger) == db.ledger;
    }
  }

  lemma {:induction false} StepsLog(w: World, worlds: seq<World>, first: int)
    requires Journaled(w.db, first) && Steps(w, worlds)
    ensures Journaled(At(w, worlds).db, first)
    decreases |worlds|
  {
    hide Takes, Journaled, Logged;
    if worlds != [] {
      var k :| Takes(w, worlds[0], k);
      StepLogs(w, worlds[0], k);
      LoggedKeeps(w.db, worlds[0].db, first);
      StepsLog(worlds[0], worlds[1..], first);
    }
  }

  lemma {:induction false} EveryRunJournaled(start: World, steps: seq<CycleStep>)
    requires FreshStart(start)
    ensures Journaled(RunCycles(start, steps).db, start.db.machine.account.revision)
  {
    hide Cycle, Inv, PostsOk, Decided, Steps, Chain;
    if steps == [] {
      StartJournaled(start);
    } else {
      var front := DropLast(steps);
      EveryRunJournaled(start, front);
      EveryRun(start, front);
      var w := RunCycles(start, front);
      CycleKeeps(w, Last(steps).oracle, Last(steps).stop);
      var worlds, stop := Cycle(w, Last(steps).oracle).worlds, Last(steps).stop;
      StepsLog(w, if stop <= |worlds| then worlds[..stop] else worlds, start.db.machine.account.revision);
    }
  }

  lemma StartJournaled(start: World)
    requires FreshStart(start)
    ensures Journaled(start.db, start.db.machine.account.revision)
  {
  }
}
