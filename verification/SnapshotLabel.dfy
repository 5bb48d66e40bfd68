// The execution state in the snapshot that a reconciliation returns, against the machine row: a
// journaled PARTIAL or PENDING key leaves the machine where it was.
module SnapshotLabel {
  import opened Common
  import opened Capital
  import opened ExecutionTables
  import opened ExecutionSteps
  import opened ExecutionInvariant
  import opened ExecutionKeeps

  lemma MovedOrNot(db: Db, id: nat, w: Workflow, suffix: Suffix, to: ExecState)
    requires MoveAndCommit(Put(db, id, w), id, suffix, to).Ok?
    ensures MoveAndCommit(Put(db, id, w), id, suffix, to).value.machine.exec ==
            if FindRow(db.journal, ExecKey(id, suffix)).Some? then db.machine.exec else to
  {
  }

  // The snapshot of a SELL reconciliation names the machine's state unless it is PARTIAL_FILL or
  // SELL_PENDING, was journaled before, and the machine is in the other of the two.
  lemma SellLabel(db: Db, id: nat, statuses: map<nat, LegStatus>)
    requires Inv(db) && MarkSell(db, id, statuses).Ok?
    ensures var named := SellVerdict(statuses).exec;
            MarkSell(db, id, statuses).value.machine.exec != named <==>
              && named in {SellPending, PartialFill}
              && FindRow(db.journal, ExecKey(id, SellReconcile(named))).Some?
              && db.machine.exec != named
  {
    hide MoveAndCommit, Inv, FindRow, SellVerdict;
    var w, v := db.workflows[id], SellVerdict(statuses);
    MovedOrNot(db, id, Workflow(w.plan, v.status, v.phase, WithStatuses(w.legs, statuses)), SellReconcile(v.exec), v.exec);
    VerdictStates(statuses);
    if v.exec !in {SellPending, PartialFill} {
      AdvancingSell(db, id, v.exec);
    }
  }

  lemma VerdictStates(statuses: map<nat, LegStatus>)
    ensures SellVerdict(statuses).exec in {SellPending, PartialFill, Reconciling, ReconRequired, ExecFailed}
  {
  }

  lemma AdvancingSell(db: Db, id: nat, to: ExecState)
    requires Inv(db) && ActiveIn(db, id) && db.workflows[id].phase.SellPhase? && to !in {SellPending, PartialFill}
    ensures FindRow(db.journal, ExecKey(id, SellReconcile(to))).None?
  {
    FreshAdvance(db, id, SellReconcile(to));
  }

  // The same for BUY progress: only a repeated key of a workflow that stays ACTIVE can leave it behind.
  lemma BuyLabel(db: Db, id: nat, statuses: map<nat, LegStatus>, status: WorkflowStatus, suffix: Suffix, to: ExecState)
    requires Inv(db) && BuyProgress(db, id, statuses, status, suffix, to)
    ensures PersistBuyProgress(db, id, statuses, status, suffix, to).Ok?
    ensures PersistBuyProgress(db, id, statuses, status, suffix, to).value.machine.exec != to <==>
              status.Active? && FindRow(db.journal, ExecKey(id, suffix)).Some? && db.machine.exec != to
  {
    hide MoveAndCommit, Inv, FindRow, Covers;
    var w := db.workflows[id];
    PersistingKeeps(db, id, statuses, status, suffix, to);
    MovedOrNot(db, id, Workflow(w.plan, status, BuyPhase, WithStatuses(w.legs, statuses)), suffix, to);
    if !status.Active? {
      AdvancingBuy(db, id, suffix);
    }
  }

  lemma AdvancingBuy(db: Db, id: nat, suffix: Suffix)
    requires Inv(db) && ActiveIn(db, id) && db.workflows[id].phase.BuyPhase? && suffix in {BuyUnknown, BuyFailed, BuyCashBreach}
    ensures FindRow(db.journal, ExecKey(id, suffix)).None?
  {
    FreshAdvance(db, id, suffix);
  }

  /* ---- PARTIAL, PENDING, PARTIAL ---- */

  const PLAN := Plan(1, false, 0)

  // One sell, in this status, while the machine is in this state.
  function Selling(revision: int, exec: ExecState, status: LegStatus, journal: seq<Row>): Db {
    Db(Machine(Account(revision, 0, 0, 0), exec),
       map[1 := Workflow(PLAN, Active, SellPhase, [Leg(LegSpec(Sell, 1, 1.0, None), status, Some(7))])], journal, [])
  }

  function Row1(revision: int): Row {
    ExecRow(ExecKey(1, SellReconcile(PartialFill)), revision, revision + 1, SellPending, PartialFill)
  }

  function Row2(revision: int): Row {
    ExecRow(ExecKey(1, SellReconcile(SellPending)), revision, revision + 1, PartialFill, SellPending)
  }

  lemma Reconciles(db: Db, status: LegStatus)
    requires db.workflows.Keys == {1} && db.workflows[1].plan == PLAN && db.workflows[1].status.Active? && db.workflows[1].phase.SellPhase?
    requires |db.workflows[1].legs| == 1 && db.workflows[1].legs[0].spec.side.Sell? && Reconcilable(db.workflows[1].legs[0])
    requires status in {LegPartial, LegPending}
    ensures var named := if status.LegPartial? then PartialFill else SellPending;
            && SellVerdict(map[0 := status]) == Verdict(Active, SellPhase, named)
            && MarkSell(db, 1, map[0 := status]) ==
               MoveAndCommit(Put(db, 1, Workflow(PLAN, Active, SellPhase, [db.workflows[1].legs[0].(status := status)])), 1, SellReconcile(named), named)
  {
    hide MoveAndCommit;
    var legs, statuses := db.workflows[1].legs, map[0 := status];
    assert statuses.Values == {status} by { assert 0 in statuses; }
    assert Indexes(legs, Sell) == {0};
    assert WithStatuses(legs, statuses) == [legs[0].(status := status)];
  }

  // After PARTIAL, PENDING and PARTIAL the snapshot says PARTIAL_FILL and the machine SELL_PENDING.
  lemma LabelRunsAhead(start: Db)
    requires start == Selling(5, SellPending, BrokerAccepted, [])
    ensures var first := MarkSell(start, 1, map[0 := LegPartial]);
            && first.Ok?
            && var second := MarkSell(first.value, 1, map[0 := LegPending]);
            && second.Ok?
            && var third := MarkSell(second.value, 1, map[0 := LegPartial]);
            && third.Ok?
            && SellVerdict(map[0 := LegPartial]).exec == PartialFill
            && third.value.machine.exec == SellPending
  {
    hide MarkSell, SellVerdict;
    Reconciles(start, LegPartial);
    var one := Selling(6, PartialFill, LegPartial, [Row1(5)]);
    assert MarkSell(start, 1, map[0 := LegPartial]) == Ok(one) by {
      assert [] + [Row1(5)] == [Row1(5)];
      assert Put(start, 1, one.workflows[1]).workflows == one.workflows;
    }
    Reconciles(one, LegPending);
    var two := Selling(7, SellPending, LegPending, [Row1(5), Row2(6)]);
    assert MarkSell(one, 1, map[0 := LegPending]) == Ok(two) by {
      assert DropLast([Row1(5)]) == [];
      assert [Row1(5)] + [Row2(6)] == [Row1(5), Row2(6)];
      assert Put(one, 1, two.workflows[1]).workflows == two.workflows;
    }
    Reconciles(two, LegPartial);
    assert DropLast([Row1(5), Row2(6)]) == [Row1(5)];
    assert FindRow([Row1(5)], ExecKey(1, SellReconcile(PartialFill))) == Some(Row1(5));
    assert FindRow(two.journal, ExecKey(1, SellReconcile(PartialFill))) == Some(Row1(5));
  }
}
