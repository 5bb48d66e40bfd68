// Every allowed step keeps the invariant.
module ExecutionKeeps {
  import opened Common
  import opened Capital
  import opened ExecutionTables
  import opened Executor
  import opened ExecutionSteps
  import opened ExecutionInvariant

  lemma {:induction false} LegsOfMember(legs: seq<Leg>, side: Side, leg: Leg)
    ensures leg in LegsOf(legs, side) <==> leg in legs && leg.spec.side == side
  {
    if legs != [] {
      LegsOfMember(DropLast(legs), side, leg);
      assert legs == DropLast(legs) + [Last(legs)];
    }
  }

  // With nothing unfinished the machine idles, and a new workflow starts alone.
  lemma CreatingKeeps(db: Db, plan: Plan, specs: seq<LegSpec>)
    requires Inv(db) && NonComplete(db) == {} && Awaiting(db) == {} && CreateWorkflow(db, plan, specs).Ok?
    ensures Inv(CreateWorkflow(db, plan, specs).value)
  {
    hide ActiveOk, AwaitsControl, RowOk, LegsOf;
    var id := Id(plan);
    if id !in db.workflows {
      var w := Workflow(plan, Active, NoPhase, PlannedLegs(specs));
      var put := Put(db, id, w);
      NewKeyFresh(db, id, Created);
      MoveFresh(put, id, Created, PlanCreated);
      var next := MovedTo(put, id, Created, PlanCreated);
      assert next == CreateWorkflow(db, plan, specs).value;
      NewRows(db, id, w, next);
      forall other | other in next.workflows && other != id
        ensures next.workflows[other].status.Complete? && !Unfinished(next, other)
      {
        assert other !in NonComplete(db) && other !in Awaiting(db);
        AwaitingShrinks(db, next, other);
      }
      NewFits(w, next.machine.account);
      PlannedOk(specs);
      assert next.workflows[id] == w;
      forall other | other in next.workflows
        ensures Id(next.workflows[other].plan) == other && LegsOk(next.workflows[other].legs)
        ensures Fits(next.workflows[other], next.machine.exec, next.machine.account)
      {
      }
    }
  }

  lemma PlannedOk(specs: seq<LegSpec>)
    requires ValidLegs(specs, Sell)
    ensures LegsOk(PlannedLegs(specs))
  {
  }

  lemma NewFits(w: Workflow, a: Account)
    requires w.status.Active? && w.phase.NoPhase?
    requires forall i :: 0 <= i < |w.legs| ==> w.legs[i].spec.side.Sell? && w.legs[i].status.Planned?
    ensures Fits(w, PlanCreated, a)
  {
  }

  lemma NewRows(db: Db, id: nat, w: Workflow, next: Db)
    requires KeysOk(db) && id !in db.workflows && w.status.Active? && w.phase.NoPhase? && !db.machine.exec.PlanCreated?
    requires next == MovedTo(Put(db, id, w), id, Created, PlanCreated)
    ensures KeysOk(next)
  {
    forall i | 0 <= i < |next.journal| ensures RowOk(next, next.journal[i]) {
      if i < |db.journal| {
        assert RowOk(db, db.journal[i]);
      }
    }
  }

  lemma StartingKeeps(db: Db, id: nat)
    requires Inv(db) && StartWorkflow(db, id).Ok?
    ensures Inv(StartWorkflow(db, id).value)
  {
    hide AwaitsControl, RowOk, LegsOk, WorkflowsOk, KeysOk, Alone, MoveAndCommit;
    var w := db.workflows[id];
    PlanIs(db, id);
    if w.phase.NoPhase? {
      if w.legs != [] {
        LegsOfMember(w.legs, Sell, w.legs[0]);
        Advances(db, id, w.(phase := SellPhase), Start, SellPending);
      } else {
        Advances(db, id, w.(phase := ReconcilePhase), Start, Reconciling);
      }
    }
  }

  lemma IntendingKeeps(db: Db, id: nat, i: nat)
    requires Inv(db) && NextToSubmit(db, id, i)
    ensures RecordIntent(db, id, i).Ok? && Inv(RecordIntent(db, id, i).value)
  {
    hide AwaitsControl, RowOk, WorkflowsOk, KeysOk, Alone;
    var w := db.workflows[id];
    PlanIs(db, id);
    var legs := w.legs[i := w.legs[i].(status := IntentRecorded)];
    IntentFits(w, i, db.machine.exec, db.machine.account);
    LegChanged(db, id, w.(legs := legs));
  }

  lemma IntentFits(w: Workflow, i: nat, exec: ExecState, a: Account)
    requires w.status.Active? && Fits(w, exec, a) && i < |w.legs| && PhaseOf(w.phase, w.legs[i].spec.side)
    requires w.legs[i].status.Planned? && forall j :: 0 <= j < i ==> !w.legs[j].status.Planned?
    ensures Fits(w.(legs := w.legs[i := w.legs[i].(status := IntentRecorded)]), exec, a)
  {
    var legs := w.legs[i := w.legs[i].(status := IntentRecorded)];
    assert legs[i].status.IntentRecorded?;
    forall j, k | 0 <= j < k < |legs| && legs[j].status.Planned? && w.phase.BuyPhase? ensures legs[k].status.Planned? {
      assert w.legs[j].status.Planned?;
    }
  }

  lemma AcceptingKeeps(db: Db, id: nat, i: nat, orderId: nat)
    requires Inv(db) && LegIn(db, id, i) && Ambiguous(db.workflows[id].legs[i])
    ensures RecordAcceptance(db, id, i, orderId).Ok? && Inv(RecordAcceptance(db, id, i, orderId).value)
  {
    hide AwaitsControl, RowOk, WorkflowsOk, KeysOk, Alone;
    var w := db.workflows[id];
    PlanIs(db, id);
    AcceptFits(w, i, orderId, db.machine.exec, db.machine.account);
    LegChanged(db, id, w.(legs := w.legs[i := w.legs[i].(status := BrokerAccepted, orderId := Some(orderId))]));
  }

  lemma AcceptFits(w: Workflow, i: nat, orderId: nat, exec: ExecState, a: Account)
    requires w.status.Active? && Fits(w, exec, a) && i < |w.legs| && PhaseOf(w.phase, w.legs[i].spec.side)
    requires w.legs[i].status.IntentRecorded?
    ensures Fits(w.(legs := w.legs[i := w.legs[i].(status := BrokerAccepted, orderId := Some(orderId))]), exec, a)
  {
    var legs := w.legs[i := w.legs[i].(status := BrokerAccepted, orderId := Some(orderId))];
    assert legs[i].status.BrokerAccepted?;
  }

  lemma RequiringKeeps(db: Db, id: nat)
    requires Inv(db) && ActiveIn(db, id)
    ensures RequireReconciliation(db, id).Ok? && Inv(RequireReconciliation(db, id).value.0)
    ensures AnyAmbiguous(db.workflows[id].legs) ==>
              && RequireReconciliation(db, id).value.1
              && id in RequireReconciliation(db, id).value.0.workflows
              && RequireReconciliation(db, id).value.0.workflows[id] == db.workflows[id].(status := ReconciliationRequired)
  {
    hide AwaitsControl, RowOk, WorkflowsOk, KeysOk, Alone, MoveAndCommit, LegsOk;
    PlanIs(db, id);
    if AnyAmbiguous(db.workflows[id].legs) {
      Advances(db, id, db.workflows[id].(status := ReconciliationRequired), AmbiguousIntent, ReconRequired);
    }
  }

  /* ---- Statuses written over legs ---- */

  lemma StatusesOk(legs: seq<Leg>, statuses: map<nat, LegStatus>)
    requires LegsOk(legs) && statuses.Values <= RECONCILED
    requires forall i :: i in statuses && i < |legs| ==> legs[i].orderId.Some?
    ensures LegsOk(WithStatuses(legs, statuses))
  {
    forall i | 0 <= i < |legs| ensures LegOk(WithStatuses(legs, statuses)[i]) {
      if i in statuses {
        assert statuses[i] in statuses.Values;
      }
    }
  }

  lemma SomeValue(statuses: map<nat, LegStatus>, v: LegStatus) returns (i: nat)
    requires v in statuses.Values
    ensures i in statuses && statuses[i] == v
  {
    i :| i in statuses && statuses[i] == v;
  }

  lemma OnlyFilled(statuses: map<nat, LegStatus>)
    requires statuses.Keys != {} && forall i :: i in statuses ==> statuses[i].LegFilled?
    ensures statuses.Values == {LegFilled}
  {
    var k :| k in statuses.Keys;
    assert statuses[k] in statuses.Values;
    assert forall v :: v in statuses.Values ==> v == LegFilled;
  }

  // Unless every value is FILLED, one is still open.
  lemma SomeOpen(statuses: map<nat, LegStatus>) returns (i: nat)
    requires statuses.Keys != {} && statuses.Values != {LegFilled}
    ensures i in statuses && !statuses[i].LegFilled?
  {
    if forall i :: i in statuses ==> statuses[i].LegFilled? {
      OnlyFilled(statuses);
    }
    i :| i in statuses && !statuses[i].LegFilled?;
  }

  lemma SellFits(w: Workflow, statuses: map<nat, LegStatus>, exec: ExecState, a: Account)
    requires w.status.Active? && w.phase.SellPhase? && Fits(w, exec, a)
    requires statuses.Values <= RECONCILED && statuses.Keys == Indexes(w.legs, Sell)
    ensures var v := SellVerdict(statuses);
            var next := Workflow(w.plan, v.status, v.phase, WithStatuses(w.legs, statuses));
            && Fits(next, v.exec, a)
            && (v.status.Active? && v.phase.SellPhase? ==> Fits(next, exec, a))
    ensures var v := SellVerdict(statuses);
            if v.status.Active? && v.phase.SellPhase? then v.exec in {SellPending, PartialFill}
            else if v.status.Active? then v.phase.ReconcilePhase? && v.exec.Reconciling?
            else !v.status.Complete? && v.exec in {ReconRequired, ExecFailed}
  {
    var v := SellVerdict(statuses);
    var legs := WithStatuses(w.legs, statuses);
    forall i | 0 <= i < |legs| ensures i in statuses && legs[i].status == statuses[i] && legs[i].spec.side.Sell? {
      assert i in Indexes(w.legs, Sell);
    }
    var k :| 0 <= k < |w.legs| && !w.legs[k].status.LegFilled?;
    assert k in statuses;
    if v.status.Active? {
      forall i | 0 <= i < |legs| ensures NotBad(legs[i]) {
        assert statuses[i] in statuses.Values;
      }
      if v.phase.SellPhase? {
        var open := SomeOpen(statuses);
        assert open in Indexes(w.legs, Sell) && !legs[open].status.LegFilled?;
      } else {
        forall i | 0 <= i < |legs| ensures legs[i].status.LegFilled? {
          assert statuses[i] in statuses.Values;
        }
      }
    }
  }

  lemma SellsHaveIds(legs: seq<Leg>, statuses: map<nat, LegStatus>)
    requires statuses.Keys == Indexes(legs, Sell) && AllReconcilable(legs, Sell)
    ensures forall i :: i in statuses && i < |legs| ==> legs[i].orderId.Some?
  {
    forall i | i in statuses && i < |legs| ensures legs[i].orderId.Some? {
      assert i in Indexes(legs, Sell);
      assert Reconcilable(legs[i]);
    }
  }

  lemma MarkingSellKeeps(db: Db, id: nat, statuses: map<nat, LegStatus>)
    requires Inv(db) && MarkSell(db, id, statuses).Ok?
    ensures Inv(MarkSell(db, id, statuses).value)
  {
    hide Inv, MoveAndCommit, LegsOk, Fits, SellVerdict;
    var w, v := db.workflows[id], SellVerdict(statuses);
    PlanIs(db, id);
    SellFits(w, statuses, db.machine.exec, db.machine.account);
    SellsHaveIds(w.legs, statuses);
    StatusesOk(w.legs, statuses);
    hide Indexes, AllReconcilable, WithStatuses;
    var next := Workflow(w.plan, v.status, v.phase, WithStatuses(w.legs, statuses));
    if v.status.Active? && v.phase.SellPhase? {
      NotIdle(db, id);
      Repeats(db, id, next, SellReconcile(v.exec), v.exec);
    } else {
      Advances(db, id, next, SellReconcile(v.exec), v.exec);
    }
  }

  lemma NotIdle(db: Db, id: nat)
    requires Inv(db) && ActiveIn(db, id)
    ensures !db.machine.exec.Idle?
  {
    assert Fits(db.workflows[id], db.machine.exec, db.machine.account);
  }

  lemma InstallingKeeps(db: Db, id: nat, specs: seq<LegSpec>)
    requires Inv(db) && InstallBuys(db, id, specs).Ok?
    ensures Inv(InstallBuys(db, id, specs).value)
  {
    hide AwaitsControl, RowOk, WorkflowsOk, KeysOk, Alone, MoveAndCommit;
    var w := db.workflows[id];
    PlanIs(db, id);
    if specs == [] {
      Advances(db, id, w.(status := Complete), NoBuyComplete, Idle);
    } else {
      var next := w.(phase := BuyPhase, legs := w.legs + PlannedLegs(specs));
      InstallFits(w, specs, db.machine.exec, db.machine.account);
      Advances(db, id, next, BuyInstalled, BuyPending);
    }
  }

  lemma InstallFits(w: Workflow, specs: seq<LegSpec>, exec: ExecState, a: Account)
    requires w.status.Active? && w.phase.ReconcilePhase? && Fits(w, exec, a) && LegsOk(w.legs)
    requires specs != [] && ValidLegs(specs, Buy) && (forall i :: 0 <= i < |specs| ==> specs[i].estimate.Some?) && CashOk(a)
    ensures var next := w.(phase := BuyPhase, legs := w.legs + PlannedLegs(specs));
            LegsOk(next.legs) && Fits(next, BuyPending, a)
  {
    var legs := w.legs + PlannedLegs(specs);
    assert legs[|w.legs|] == Leg(specs[0], Planned, None);
    forall i | |w.legs| <= i < |legs| ensures legs[i] == Leg(specs[i - |w.legs|], Planned, None) && LegOk(legs[i]) {
    }
  }

  // Progress leaves a filled sell filled, a good leg good, and a planned one planned.
  lemma ProgressLeg(w: Workflow, statuses: map<nat, LegStatus>, i: nat)
    requires Covers(w, Buy, statuses) && LegUnknown !in statuses.Values && LegFailed !in statuses.Values
    requires i < |w.legs| && NotBad(w.legs[i]) && (w.legs[i].spec.side.Sell? ==> w.legs[i].status.LegFilled?)
    ensures var leg := WithStatuses(w.legs, statuses)[i];
            && NotBad(leg) && (leg.spec.side.Sell? ==> leg.status.LegFilled?)
            && (leg.status.Planned? <==> w.legs[i].status.Planned?)
  {
    if i in statuses {
      assert statuses[i] in statuses.Values;
    }
  }

  lemma ProgressLegs(db: Db, id: nat, statuses: map<nat, LegStatus>, suffix: Suffix, to: ExecState)
    requires BuyProgress(db, id, statuses, Active, suffix, to)
    requires Fits(db.workflows[id], db.machine.exec, db.machine.account)
    ensures var w := db.workflows[id]; var legs := WithStatuses(w.legs, statuses);
            forall i :: 0 <= i < |legs| ==>
              && NotBad(legs[i]) && (legs[i].spec.side.Sell? ==> legs[i].status.LegFilled?)
              && (legs[i].status.Planned? <==> w.legs[i].status.Planned?)
  {
    hide Covers;
    var w := db.workflows[id];
    GoodLegs(w, db.machine.exec, db.machine.account);
    hide Fits, WithStatuses, NotBad;
    forall i | 0 <= i < |w.legs|
      ensures var leg := WithStatuses(w.legs, statuses)[i];
              && NotBad(leg) && (leg.spec.side.Sell? ==> leg.status.LegFilled?)
              && (leg.status.Planned? <==> w.legs[i].status.Planned?)
    {
      ProgressLeg(w, statuses, i);
    }
    SameLength(w.legs, statuses);
  }

  lemma SameLength(legs: seq<Leg>, statuses: map<nat, LegStatus>)
    ensures |WithStatuses(legs, statuses)| == |legs|
  {
  }

  lemma GoodLegs(w: Workflow, exec: ExecState, a: Account)
    requires w.status.Active? && w.phase.BuyPhase? && Fits(w, exec, a)
    ensures forall i :: 0 <= i < |w.legs| ==> NotBad(w.legs[i]) && (w.legs[i].spec.side.Sell? ==> w.legs[i].status.LegFilled?)
  {
  }

  // A buy is still open.
  lemma ProgressOpen(db: Db, id: nat, statuses: map<nat, LegStatus>, suffix: Suffix, to: ExecState) returns (i: nat)
    requires BuyProgress(db, id, statuses, Active, suffix, to)
    requires Fits(db.workflows[id], db.machine.exec, db.machine.account)
    ensures var legs := WithStatuses(db.workflows[id].legs, statuses);
            && i < |legs| && legs[i].spec.side.Buy? && !legs[i].status.LegFilled?
            && (suffix.BuyLegFilled? || !SettledOrPlanned(legs[i]))
  {
    var w := db.workflows[id];
    if suffix.BuyLegFilled? {
      i :| 0 <= i < |w.legs| && w.legs[i].status.Planned?;
    } else {
      i := OpenValue(statuses, suffix);
    }
  }

  lemma ProgressFits(db: Db, id: nat, statuses: map<nat, LegStatus>, suffix: Suffix, to: ExecState)
    requires BuyProgress(db, id, statuses, Active, suffix, to)
    requires Fits(db.workflows[id], db.machine.exec, db.machine.account)
    ensures var w := db.workflows[id];
            var next := Workflow(w.plan, Active, BuyPhase, WithStatuses(w.legs, statuses));
            Fits(next, to, db.machine.account) && Fits(next, db.machine.exec, db.machine.account)
  {
    hide Covers;
    ProgressLegs(db, id, statuses, suffix, to);
    var i := ProgressOpen(db, id, statuses, suffix, to);
  }

  // A partial or pending result names a leg still open.
  lemma OpenValue(statuses: map<nat, LegStatus>, suffix: Suffix) returns (i: nat)
    requires statuses.Values <= RECONCILED && statuses.Keys != {}
    requires (suffix.BuyPartial? && LegPartial in statuses.Values) || statuses.Values != {LegFilled}
    ensures i in statuses && !statuses[i].LegFilled? && !statuses[i].Planned?
  {
    if LegPartial in statuses.Values {
      i := SomeValue(statuses, LegPartial);
    } else {
      i := SomeOpen(statuses);
      assert statuses[i] in statuses.Values;
    }
  }

  lemma PersistingKeeps(db: Db, id: nat, statuses: map<nat, LegStatus>, status: WorkflowStatus, suffix: Suffix, to: ExecState)
    requires Inv(db) && BuyProgress(db, id, statuses, status, suffix, to)
    ensures PersistBuyProgress(db, id, statuses, status, suffix, to).Ok?
    ensures Inv(PersistBuyProgress(db, id, statuses, status, suffix, to).value)
  {
    hide AwaitsControl, RowOk, WorkflowsOk, KeysOk, Alone, MoveAndCommit, LegsOk, ActiveOk;
    var w := db.workflows[id];
    PlanIs(db, id);
    StatusesOk(w.legs, statuses);
    var next := Workflow(w.plan, status, BuyPhase, WithStatuses(w.legs, statuses));
    if status.Active? {
      ProgressFits(db, id, statuses, suffix, to);
      NotIdle(db, id);
      Repeats(db, id, next, suffix, to);
    } else {
      Advances(db, id, next, suffix, to);
    }
  }

  function AllFilled(legs: seq<Leg>): map<nat, LegStatus> {
    map i | i in Indexes(legs, Buy) :: LegFilled
  }

  lemma MarkingBuyKeeps(db: Db, id: nat)
    requires Inv(db) && id in db.workflows && MarkBuy(db, id, AllFilled(db.workflows[id].legs)).Ok?
    ensures Inv(MarkBuy(db, id, AllFilled(db.workflows[id].legs)).value)
  {
    hide AwaitsControl, RowOk, WorkflowsOk, KeysOk, Alone, MoveAndCommit, LegsOk, ActiveOk;
    var w := db.workflows[id];
    PlanIs(db, id);
    var statuses := AllFilled(w.legs);
    assert statuses.Keys == Indexes(w.legs, Buy);
    OnlyFilled(statuses);
    assert forall i :: i in statuses && i < |w.legs| ==> w.legs[i].orderId.Some?;
    StatusesOk(w.legs, statuses);
    Advances(db, id, Workflow(w.plan, Complete, ReconcilePhase, WithStatuses(w.legs, statuses)), BuyReconcile(Idle), Idle);
  }

  /* ---- Fills and control rows ---- */

  lemma FillingKeeps(w: World, next: World, id: nat, i: nat, event: FillEvent)
    requires Inv(w.db) && Takes(w, next, Filling(id, i, event))
    ensures Inv(next.db)
  {
    hide AwaitsControl, LegsOk, FindFill;
    var db := w.db;
    forall other | other in db.workflows
      ensures Fits(db.workflows[other], next.db.machine.exec, next.db.machine.account)
    {
      assert Fits(db.workflows[other], db.machine.exec, db.machine.account);
      if other != id {
        OthersFinished(db, id, other);
      }
    }
    assert KeysOk(next.db) by { SameRows(db, next.db); }
    assert Alone(next.db) by {
      forall a | Unfinished(next.db, a) ensures Unfinished(db, a) {
        AwaitingShrinks(db, next.db, a);
      }
    }
  }

  lemma SameRows(db: Db, next: Db)
    requires KeysOk(db) && next.workflows == db.workflows && next.journal == db.journal
    ensures KeysOk(next)
  {
    forall i | 0 <= i < |next.journal| ensures RowOk(next, next.journal[i]) {
      assert RowOk(db, db.journal[i]);
    }
  }

  lemma ControllingKeeps(db: Db, c: Control)
    requires Inv(db) && c.key.ControlKey? && ControlTransition(db, c).Ok?
    ensures Inv(ControlTransition(db, c).value)
  {
    hide AwaitsControl, LegsOk, ActiveOk, FindRow;
    var next := ControlTransition(db, c).value;
    if next != db {
      forall other | other in db.workflows
        ensures Fits(db.workflows[other], next.machine.exec, next.machine.account)
      {
        FitsSameCash(db.workflows[other], db.machine.exec, db.machine.account, next.machine.account);
      }
      RowAdded(db, Last(next.journal), next);
      assert next.journal[..|db.journal|] == db.journal;
      forall a | Unfinished(next, a) ensures Unfinished(db, a) {
        AwaitingShrinks(db, next, a);
      }
    }
  }

  lemma StepKeepsInv(w: World, next: World, k: Kind)
    requires Inv(w.db) && Takes(w, next, k)
    ensures Inv(next.db)
  {
    hide Inv;
    match k
    case Stay =>
    case Creating(plan, specs) => CreatingKeeps(w.db, plan, specs);
    case Starting(id) => StartingKeeps(w.db, id);
    case Intending(id, i) => IntendingKeeps(w.db, id, i);
    case Posting(id, i, side) =>
    case Accepting(id, i, orderId) => AcceptingKeeps(w.db, id, i, orderId);
    case Requiring(id) => RequiringKeeps(w.db, id);
    case MarkingSell(id, statuses) => MarkingSellKeeps(w.db, id, statuses);
    case Installing(id, specs) => InstallingKeeps(w.db, id, specs);
    case Persisting(id, statuses, status, suffix, to) => PersistingKeeps(w.db, id, statuses, status, suffix, to);
    case MarkingBuy(id) => MarkingBuyKeeps(w.db, id);
    case Filling(id, i, event) => FillingKeeps(w, next, id, i, event);
    case Controlling(c) => ControllingKeeps(w.db, c);
  }

  lemma {:induction false} StepsKeepInv(w: World, worlds: seq<World>)
    requires Inv(w.db) && Steps(w, worlds)
    ensures Inv(At(w, worlds).db)
    decreases |worlds|
  {
    hide Inv, Takes;
    if worlds != [] {
      var k :| Takes(w, worlds[0], k);
      StepKeepsInv(w, worlds[0], k);
      StepsKeepInv(worlds[0], worlds[1..]);
    }
  }

  lemma InitialInv(account: Account)
    requires account.debt == Debt(account.cash)
    ensures Inv(Initial(account))
  {
  }
}
