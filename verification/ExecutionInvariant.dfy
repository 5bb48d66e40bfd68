// What every durable state of a single-process run keeps: at most one unfinished workflow,
// the machine in the state its status and phase call for, legs in shape, cash and debt tied,
// and a journal whose keys leave every advancing key of the live workflow fresh.
module ExecutionInvariant {
  import opened Common
  import opened Capital
  import opened ExecutionTables
  import opened Executor
  import opened ExecutionSteps

  ghost predicate LegOk(leg: Leg) {
    && ValidLeg(leg.spec, leg.spec.side)
    && (leg.spec.side.Buy? ==> leg.spec.estimate.Some?)
    && (leg.orderId.None? <==> leg.status.Planned? || leg.status.IntentRecorded?)
  }

  ghost predicate LegsOk(legs: seq<Leg>) {
    && (forall i :: 0 <= i < |legs| ==> LegOk(legs[i]))
    && (forall i, j :: 0 <= i < j < |legs| && legs[i].spec.side.Buy? ==> legs[j].spec.side.Buy?)
  }

  ghost predicate NotBad(leg: Leg) {
    !leg.status.LegFailed? && !leg.status.LegUnknown?
  }

  // What an ACTIVE workflow looks like, phase by phase.  PARTIAL_FILL and the pending states
  // are interchangeable: a replayed key leaves the machine behind the returned snapshot.
  ghost predicate ActiveOk(w: Workflow, exec: ExecState, a: Account) {
    match w.phase
    case NoPhase =>
      exec.PlanCreated? && forall i :: 0 <= i < |w.legs| ==> w.legs[i].spec.side.Sell? && w.legs[i].status.Planned?
    case SellPhase =>
      && exec in {SellPending, PartialFill}
      && (forall i :: 0 <= i < |w.legs| ==> w.legs[i].spec.side.Sell? && NotBad(w.legs[i]))
      && (exists i :: 0 <= i < |w.legs| && !w.legs[i].status.LegFilled?)
    case ReconcilePhase =>
      exec.Reconciling? && forall i :: 0 <= i < |w.legs| ==> w.legs[i].spec.side.Sell? && w.legs[i].status.LegFilled?
    case BuyPhase =>
      && exec in {BuyPending, PartialFill}
      && (forall i :: 0 <= i < |w.legs| ==> NotBad(w.legs[i]) && (w.legs[i].spec.side.Sell? ==> w.legs[i].status.LegFilled?))
      && (exists i :: 0 <= i < |w.legs| && w.legs[i].spec.side.Buy? && !w.legs[i].status.LegFilled?)
      && (forall i, j :: 0 <= i < j < |w.legs| && w.legs[i].status.Planned? ==> w.legs[j].status.Planned?)
      && ((forall i :: 0 <= i < |w.legs| ==> SettledOrPlanned(w.legs[i])) ==> CashOk(a))
  }

  ghost predicate Fits(w: Workflow, exec: ExecState, a: Account) {
    match w.status
    case Active => ActiveOk(w, exec, a)
    case Failed => exec.ExecFailed?
    case ReconciliationRequired => exec.ReconRequired?
    case Complete => true
  }

  // How far a key takes its workflow; keys of the same phase can be replayed, later ones not.
  function Rank(s: Suffix): nat {
    match s
    case Created => 0
    case Start => 1
    case SellReconcile(to) => if to in {SellPending, PartialFill} then 2 else if to.Reconciling? then 3 else 9
    case BuyInstalled => 4
    case BuyPartial => 5
    case BuyStillPending => 5
    case BuyLegFilled(_) => 5
    case _ => 9
  }

  function Bound(phase: Phase): nat {
    match phase
    case NoPhase => 1
    case SellPhase => 3
    case ReconcilePhase => 4
    case BuyPhase => 6
  }

  // The replayable suffixes name their state.
  predicate Leads(s: Suffix, to: ExecState) {
    match s
    case SellReconcile(state) => to == state
    case BuyPartial => to == PartialFill
    case BuyStillPending => to == BuyPending
    case BuyLegFilled(_) => to == BuyPending
    case _ => true
  }

  ghost predicate RowOk(db: Db, row: Row) {
    && (row.ExecRow? <==> row.key.ExecKey?)
    && (row.ExecRow? ==>
          && Leads(row.key.suffix, row.toState)
          && row.key.workflow in db.workflows
          && (db.workflows[row.key.workflow].status.Active? ==> Rank(row.key.suffix) < Bound(db.workflows[row.key.workflow].phase)))
  }

  ghost predicate KeysOk(db: Db) {
    forall i :: 0 <= i < |db.journal| ==> RowOk(db, db.journal[i])
  }

  ghost predicate Unfinished(db: Db, id: nat) {
    id in db.workflows && (!db.workflows[id].status.Complete? || AwaitsControl(db, db.workflows[id]))
  }

  ghost predicate Alone(db: Db) {
    forall a, b :: Unfinished(db, a) && Unfinished(db, b) ==> a == b
  }

  ghost predicate WorkflowsOk(db: Db) {
    && (forall id :: id in db.workflows ==> Id(db.workflows[id].plan) == id && LegsOk(db.workflows[id].legs))
    && (forall id :: id in db.workflows ==> Fits(db.workflows[id], db.machine.exec, db.machine.account))
    && ((forall id :: id in db.workflows ==> db.workflows[id].status.Complete?) ==> db.machine.exec.Idle?)
  }

  ghost predicate Inv(db: Db) {
    && db.machine.account.debt == Debt(db.machine.account.cash)
    && WorkflowsOk(db)
    && Alone(db)
    && KeysOk(db)
  }

  /* ---- Moving the live workflow ---- */

  // Journaled rows stay found, so nothing finished becomes unfinished.
  lemma FoundStays(rows: seq<Row>, row: Row, key: Key)
    ensures FindRow(rows, key).Some? ==> FindRow(rows + [row], key).Some?
    ensures row.key != key ==> FindRow(rows + [row], key) == FindRow(rows, key)
  {
    assert DropLast(rows + [row]) == rows;
  }

  lemma AwaitingShrinks(db: Db, next: Db, id: nat)
    requires id in db.workflows && id in next.workflows && next.workflows[id] == db.workflows[id]
    requires next.journal == db.journal || (|next.journal| == |db.journal| + 1 && next.journal[..|db.journal|] == db.journal)
    ensures Unfinished(next, id) ==> Unfinished(db, id)
  {
    if next.journal != db.journal {
      var row := Last(next.journal);
      assert next.journal == db.journal + [row];
      FoundStays(db.journal, row, ControlKey(db.workflows[id].plan.decision, StrategyFinal));
      FoundStays(db.journal, row, ControlKey(db.workflows[id].plan.decision, MembershipFinal));
    }
  }

  // An advancing key of an ACTIVE workflow is fresh.
  lemma FreshAdvance(db: Db, id: nat, suffix: Suffix)
    requires KeysOk(db) && ActiveIn(db, id) && Rank(suffix) >= Bound(db.workflows[id].phase)
    ensures FindRow(db.journal, ExecKey(id, suffix)).None?
  {
  }

  lemma NewKeyFresh(db: Db, id: nat, suffix: Suffix)
    requires KeysOk(db) && id !in db.workflows
    ensures FindRow(db.journal, ExecKey(id, suffix)).None?
  {
  }

  // What MoveAndCommit commits when it moves the machine, and when it does not.
  function MovedTo(db: Db, id: nat, suffix: Suffix, to: ExecState): Db {
    if db.machine.exec == to then db
    else
      var a := db.machine.account;
      db.(machine := Machine(a.(revision := a.revision + 1), to),
          journal := db.journal + [ExecRow(ExecKey(id, suffix), a.revision, a.revision + 1, db.machine.exec, to)])
  }

  lemma MoveFresh(db: Db, id: nat, suffix: Suffix, to: ExecState)
    requires FindRow(db.journal, ExecKey(id, suffix)).None?
    ensures SetExec(db, id, suffix, to) == Ok(MovedTo(db, id, suffix, to))
  {
  }

  // The other workflows are finished, and stay so.
  lemma OthersFinished(db: Db, id: nat, other: nat)
    requires Inv(db) && Unfinished(db, id) && other in db.workflows && other != id
    ensures db.workflows[other].status.Complete? && !Unfinished(db, other)
  {
    assert Unfinished(db, other) ==> other == id;
  }

  // A new record for the live workflow, with the machine moved or left to match.
  lemma Rewritten(db: Db, id: nat, w: Workflow, next: Db)
    requires Inv(db) && Unfinished(db, id) && Id(w.plan) == id && w.plan == db.workflows[id].plan && LegsOk(w.legs)
    requires next.workflows == db.workflows[id := w] && next.ledger == db.ledger
    requires next.machine.account.cash == db.machine.account.cash && next.machine.account.debt == db.machine.account.debt
    requires Fits(w, next.machine.exec, next.machine.account) && (w.status.Complete? ==> next.machine.exec.Idle?)
    requires next.journal == db.journal || (|next.journal| == |db.journal| + 1 && next.journal[..|db.journal|] == db.journal)
    requires forall i :: 0 <= i < |next.journal| ==> RowOk(next, next.journal[i])
    ensures Inv(next)
  {
    hide LegsOk, RowOk, ActiveOk, AwaitsControl;
    forall other | other in next.workflows && other != id
      ensures next.workflows[other].status.Complete? && !Unfinished(next, other)
    {
      OthersFinished(db, id, other);
      AwaitingShrinks(db, next, other);
    }
    assert Alone(next);
    assert KeysOk(next);
    assert next.workflows[id] == w;
    forall other | other in next.workflows
      ensures Id(next.workflows[other].plan) == other && LegsOk(next.workflows[other].legs)
      ensures Fits(next.workflows[other], next.machine.exec, next.machine.account)
    {
    }
  }

  // Rows of a workflow that stays ACTIVE in a phase no earlier, or leaves ACTIVE.
  lemma RowsStay(db: Db, id: nat, w: Workflow, next: Db)
    requires KeysOk(db) && id in db.workflows && next.workflows == db.workflows[id := w] && next.journal == db.journal
    requires w.status.Active? ==> db.workflows[id].status.Active? && Bound(db.workflows[id].phase) <= Bound(w.phase)
    ensures KeysOk(next)
  {
    forall i | 0 <= i < |next.journal| ensures RowOk(next, next.journal[i]) {
      assert RowOk(db, db.journal[i]);
    }
  }

  lemma RowAdded(db: Db, row: Row, next: Db)
    requires KeysOk(db) && next.workflows == db.workflows && next.journal == db.journal + [row] && RowOk(next, row)
    ensures KeysOk(next)
  {
    forall i | 0 <= i < |next.journal| ensures RowOk(next, next.journal[i]) {
      if i < |db.journal| {
        assert RowOk(db, db.journal[i]);
      }
    }
  }

  lemma NoActiveWhenIdle(db: Db, id: nat, w: Workflow)
    requires Inv(db) && Unfinished(db, id) && !w.status.Active?
    ensures ActiveIds(Put(db, id, w)) == {}
  {
    var next := Put(db, id, w);
    forall other | other in next.workflows ensures !next.workflows[other].status.Active? {
      if other != id {
        OthersFinished(db, id, other);
      }
    }
  }

  // An advancing transaction always commits, moves the machine, and keeps the invariant.
  lemma Advances(db: Db, id: nat, w: Workflow, suffix: Suffix, to: ExecState)
    requires Inv(db) && ActiveIn(db, id) && w.plan == db.workflows[id].plan && LegsOk(w.legs)
    requires Bound(db.workflows[id].phase) <= Rank(suffix) && Leads(suffix, to)
    requires w.status.Active? ==> Rank(suffix) < Bound(w.phase)
    requires Fits(w, to, db.machine.account) && (to.Idle? <==> w.status.Complete?)
    ensures MoveAndCommit(Put(db, id, w), id, suffix, to) == Ok(MovedTo(Put(db, id, w), id, suffix, to))
    ensures Inv(MovedTo(Put(db, id, w), id, suffix, to))
    ensures MovedTo(Put(db, id, w), id, suffix, to).machine.exec == to
  {
    hide LegsOk, ActiveOk, RowOk, AwaitsControl, WorkflowsOk;
    var put := Put(db, id, w);
    assert Id(w.plan) == id by { PlanIs(db, id); }
    FreshAdvance(db, id, suffix);
    MoveFresh(put, id, suffix, to);
    var next := MovedTo(put, id, suffix, to);
    if to.Idle? {
      NoActiveWhenIdle(db, id, w);
      assert ActiveIds(next) == ActiveIds(put);
    }
    RowsStay(db, id, w, put);
    if next != put {
      RowAddedOk(put, id, suffix, to);
    }
    assert next.machine.account.cash == db.machine.account.cash;
    FitsSameCash(w, to, db.machine.account, next.machine.account);
    Rewritten(db, id, w, next);
  }

  lemma PlanIs(db: Db, id: nat)
    requires Inv(db) && id in db.workflows
    ensures Id(db.workflows[id].plan) == id && LegsOk(db.workflows[id].legs)
    ensures Fits(db.workflows[id], db.machine.exec, db.machine.account)
  {
  }

  lemma FitsSameCash(w: Workflow, exec: ExecState, a: Account, b: Account)
    requires Fits(w, exec, a) && a.cash == b.cash && a.debt == b.debt
    ensures Fits(w, exec, b)
  {
  }

  lemma RowAddedOk(put: Db, id: nat, suffix: Suffix, to: ExecState)
    requires KeysOk(put) && id in put.workflows && put.machine.exec != to && Leads(suffix, to)
    requires put.workflows[id].status.Active? ==> Rank(suffix) < Bound(put.workflows[id].phase)
    ensures KeysOk(MovedTo(put, id, suffix, to))
  {
    var next := MovedTo(put, id, suffix, to);
    RowAdded(put, Last(next.journal), next);
  }

  // A replayable transaction commits too; the machine stays where it was if its key is journaled
  // and moves to the named state otherwise.
  lemma Repeats(db: Db, id: nat, w: Workflow, suffix: Suffix, to: ExecState)
    requires Inv(db) && ActiveIn(db, id) && w.plan == db.workflows[id].plan && LegsOk(w.legs)
    requires w.status.Active? && w.phase == db.workflows[id].phase && Rank(suffix) < Bound(w.phase)
    requires suffix.SellReconcile? || suffix.BuyPartial? || suffix.BuyStillPending? || suffix.BuyLegFilled?
    requires Leads(suffix, to) && !to.Idle? && !db.machine.exec.Idle?
    requires Fits(w, to, db.machine.account) && Fits(w, db.machine.exec, db.machine.account)
    ensures MoveAndCommit(Put(db, id, w), id, suffix, to).Ok?
    ensures Inv(MoveAndCommit(Put(db, id, w), id, suffix, to).value)
    ensures MoveAndCommit(Put(db, id, w), id, suffix, to).value.machine.exec ==
            if FindRow(db.journal, ExecKey(id, suffix)).Some? then db.machine.exec else to
  {
    hide LegsOk, ActiveOk, AwaitsControl, WorkflowsOk;
    var put := Put(db, id, w);
    assert Id(w.plan) == id by { PlanIs(db, id); }
    RowsStay(db, id, w, put);
    match FindRow(put.journal, ExecKey(id, suffix))
    case Some(row) =>
      assert RowOk(put, row);
      Rewritten(db, id, w, put);
    case None =>
      MoveFresh(put, id, suffix, to);
      var next := MovedTo(put, id, suffix, to);
      if next != put {
        RowAddedOk(put, id, suffix, to);
      }
      FitsSameCash(w, to, db.machine.account, next.machine.account);
      Rewritten(db, id, w, next);
  }

  // A change of legs alone.
  lemma LegChanged(db: Db, id: nat, w: Workflow)
    requires Inv(db) && ActiveIn(db, id) && LegsOk(w.legs)
    requires w == db.workflows[id].(legs := w.legs) && Fits(w, db.machine.exec, db.machine.account)
    ensures Inv(Put(db, id, w))
  {
    hide LegsOk, ActiveOk, AwaitsControl, RowOk, WorkflowsOk;
    PlanIs(db, id);
    RowsStay(db, id, w, Put(db, id, w));
    Rewritten(db, id, w, Put(db, id, w));
  }
}
