// The execution tables as a store whose fields change in place: the transactions of
// src/sp1execution/execution/workflow_v04.py, apply_fill_event of state/capital_v04.py and
// transition_state of state/transitions_v04.py, each proved to commit what its function says.
module ExecutionStores {
  import opened Common
  import C = Capital
  import T = ExecutionTables
  import X = Executor

  type Db = T.Db
  type Error = T.ExecError
  type World = X.World

  // The outcome of a transaction: committed, with one more world, or rolled back.
  ghost predicate Transacted(
    was: World, wasWorlds: seq<World>, now: World, nowWorlds: seq<World>, r: Result<Db, Error>, error: Option<Error>)
  {
    match r
    case Err(e) => error == Some(e) && now == was && nowWorlds == wasWorlds
    case Ok(db) => error == None && now == was.(db := db) && nowWorlds == wasWorlds + [now]
  }

  class ExecutionStore {
    var machine: T.Machine
    var workflows: map<nat, T.Workflow>
    var journal: seq<T.Row>
    var ledger: seq<C.LedgerRow>

    // The orders sent to the broker so far.
    var posts: seq<X.Post>

    // Every world since the store was opened, one per commit and one per POST.
    ghost var worlds: seq<World>

    function View(): World
      reads this
    {
      X.World(T.Db(machine, workflows, journal, ledger), posts)
    }

    constructor (account: C.Account)
      ensures View() == X.World(T.Initial(account), []) && worlds == []
    {
      machine := T.Machine(account, T.Idle);
      workflows := map[];
      journal, ledger, posts, worlds := [], [], [], [];
    }

    method LookUpRow(key: T.Key) returns (r: Option<T.Row>)
      ensures r == T.FindRow(journal, key)
    {
      var i := |journal|;
      assert journal[..i] == journal;
      while i > 0
        invariant 0 <= i <= |journal|
        invariant T.FindRow(journal, key) == T.FindRow(journal[..i], key)
      {
        assert DropLast(journal[..i]) == journal[..i - 1];
        if journal[i - 1].key == key {
          return Some(journal[i - 1]);
        }
        i := i - 1;
      }
      return None;
    }

    // _set_execution_state, inside a transaction that is still open.
    method SetExecutionState(id: nat, suffix: T.Suffix, to: T.ExecState) returns (error: Option<Error>)
      modifies this`machine, this`journal
      ensures match T.SetExec(old(View().db), id, suffix, to)
              case Err(e) => error == Some(e) && View() == old(View())
              case Ok(db) => error == None && View() == old(View()).(db := db)
    {
      var key := T.ExecKey(id, suffix);
      var prior := LookUpRow(key);
      if prior.Some? {
        if prior.value.ControlRow? || prior.value.toState != to {
          return Some(T.ConflictingTransition);
        }
        return None;
      }
      if machine.exec == to {
        return None;
      }
      var before := machine.account.revision;
      journal := journal + [T.ExecRow(key, before, before + 1, machine.exec, to)];
      machine := T.Machine(machine.account.(revision := before + 1), to);
      return None;
    }

    // The end of a transaction that rewrites workflow id: move the machine, validate, commit or roll back.
    method Finish(id: nat, w: T.Workflow, suffix: T.Suffix, to: T.ExecState) returns (error: Option<Error>)
      modifies this
      ensures Transacted(old(View()), old(worlds), View(), worlds,
                         T.MoveAndCommit(T.Put(old(View().db), id, w), id, suffix, to), error)
    {
      var saved := (machine, workflows, journal);
      workflows := workflows[id := w];
      error := SetExecutionState(id, suffix, to);
      if error.None? && !T.ValidMachine(View().db) {
        error := Some(T.InvalidMachine);
      }
      if error.Some? {
        machine, workflows, journal := saved.0, saved.1, saved.2;
        return;
      }
      worlds := worlds + [View()];
    }

    method CreateWorkflow(plan: T.Plan, specs: seq<T.LegSpec>) returns (error: Option<Error>)
      modifies this
      ensures Transacted(old(View()), old(worlds), View(), worlds, T.CreateWorkflow(old(View().db), plan, specs), error)
    {
      hide T.MoveAndCommit, T.ActiveIds;
      for i := 0 to |specs|
        invariant forall k :: 0 <= k < i ==> T.ValidLeg(specs[k], C.Sell)
      {
        if !T.ValidLeg(specs[i], C.Sell) {
          return Some(T.InvalidLeg);
        }
      }
      var id := T.Id(plan);
      if id in workflows {
        if !T.SameCreation(workflows[id], plan, specs) {
          return Some(T.ConflictingWorkflow);
        }
        worlds := worlds + [View()];
        return None;
      }
      if !machine.exec.Idle? {
        return Some(T.NotIdle);
      }
      if T.ActiveIds(View().db) != {} {
        return Some(T.OtherActive);
      }
      var legs: seq<T.Leg> := [];
      for i := 0 to |specs|
        invariant legs == T.PlannedLegs(specs[..i])
      {
        legs := legs + [T.Leg(specs[i], T.Planned, None)];
      }
      assert specs[..|specs|] == specs;
      error := Finish(id, T.Workflow(plan, T.Active, T.NoPhase, legs), T.Created, T.PlanCreated);
    }

    method StartWorkflow(id: nat) returns (error: Option<Error>)
      modifies this
      ensures Transacted(old(View()), old(worlds), View(), worlds, T.StartWorkflow(old(View().db), id), error)
    {
      hide T.MoveAndCommit, T.LegsOf;
      if id !in workflows {
        return Some(T.UnknownWorkflow);
      }
      var w := workflows[id];
      if !w.status.Active? {
        return Some(T.NotActive);
      }
      if !w.phase.NoPhase? {
        worlds := worlds + [View()];
        return None;
      }
      if !machine.exec.PlanCreated? {
        return Some(T.WrongExecState);
      }
      if T.LegsOf(w.legs, C.Sell) != [] {
        error := Finish(id, w.(phase := T.SellPhase), T.Start, T.SellPending);
      } else {
        error := Finish(id, w.(phase := T.ReconcilePhase), T.Start, T.Reconciling);
      }
    }

    method RecordLegIntent(id: nat, i: nat) returns (error: Option<Error>)
      modifies this
      ensures Transacted(old(View()), old(worlds), View(), worlds, T.RecordIntent(old(View().db), id, i), error)
    {
      if id !in workflows {
        return Some(T.UnknownWorkflow);
      }
      var w := workflows[id];
      if i >= |w.legs| {
        return Some(T.UnknownLeg);
      }
      if !T.PhaseOf(w.phase, w.legs[i].spec.side) {
        return Some(T.WrongPhase);
      }
      if !w.legs[i].status.IntentRecorded? {
        if !w.legs[i].status.Planned? {
          return Some(T.IntentNeedsPlanned);
        }
        workflows := workflows[id := w.(legs := w.legs[i := w.legs[i].(status := T.IntentRecorded)])];
      }
      worlds := worlds + [View()];
      return None;
    }

    method RecordBrokerAcceptance(id: nat, i: nat, orderId: nat) returns (error: Option<Error>)
      modifies this
      ensures Transacted(old(View()), old(worlds), View(), worlds, T.RecordAcceptance(old(View().db), id, i, orderId), error)
    {
      if id !in workflows {
        return Some(T.UnknownWorkflow);
      }
      var w := workflows[id];
      if i >= |w.legs| {
        return Some(T.UnknownLeg);
      }
      var leg := w.legs[i];
      if leg.status in {T.BrokerAccepted, T.LegPending, T.LegPartial, T.LegFilled} {
        if leg.orderId != Some(orderId) {
          return Some(T.ConflictingOrderId);
        }
      } else {
        if !leg.status.IntentRecorded? {
          return Some(T.AcceptanceNeedsIntent);
        }
        workflows := workflows[id := w.(legs := w.legs[i := leg.(status := T.BrokerAccepted, orderId := Some(orderId))])];
      }
      worlds := worlds + [View()];
      return None;
    }

    // require_reconciliation_for_ambiguous_intent
    method RequireReconciliation(id: nat) returns (r: Result<bool, Error>)
      modifies this
      ensures match T.RequireReconciliation(old(View().db), id)
              case Err(e) => r == Err(e) && View() == old(View()) && worlds == old(worlds)
              case Ok((db, changed)) => r == Ok(changed) && View() == old(View()).(db := db) && worlds == old(worlds) + [View()]
    {
      hide T.MoveAndCommit;
      if id !in workflows {
        return Err(T.UnknownWorkflow);
      }
      var w := workflows[id];
      if !w.status.Active? {
        return Err(T.NotActive);
      }
      var ambiguous := 0;
      for i := 0 to |w.legs|
        invariant ambiguous > 0 <==> exists k :: 0 <= k < i && T.Ambiguous(w.legs[k])
        invariant ambiguous >= 0
      {
        if T.Ambiguous(w.legs[i]) {
          ambiguous := ambiguous + 1;
        }
      }
      if ambiguous == 0 {
        worlds := worlds + [View()];
        return Ok(false);
      }
      var error := Finish(id, w.(status := T.ReconciliationRequired), T.AmbiguousIntent, T.ReconRequired);
      return if error.Some? then Err(error.value) else Ok(true);
    }

    // The status updates of a reconciliation, leg by leg.
    method UpdatedLegs(legs: seq<T.Leg>, statuses: map<nat, T.LegStatus>) returns (updated: seq<T.Leg>)
      ensures updated == T.WithStatuses(legs, statuses)
    {
      updated := [];
      for i := 0 to |legs|
        invariant updated == T.WithStatuses(legs[..i], statuses)
      {
        updated := updated + [if i in statuses then legs[i].(status := statuses[i]) else legs[i]];
      }
      assert legs[..|legs|] == legs;
    }

    method MarkSellReconciliationResult(id: nat, statuses: map<nat, T.LegStatus>) returns (error: Option<Error>)
      modifies this
      ensures Transacted(old(View()), old(worlds), View(), worlds, T.MarkSell(old(View().db), id, statuses), error)
    {
      hide T.MoveAndCommit, T.Indexes, T.AllReconcilable;
      if !(statuses.Values <= T.RECONCILED) {
        return Some(T.UnsupportedStatus);
      }
      if id !in workflows || !workflows[id].status.Active? || !workflows[id].phase.SellPhase? {
        return Some(T.WrongPhase);
      }
      var w := workflows[id];
      var indexes := T.Indexes(w.legs, C.Sell);
      if indexes == {} || !T.AllReconcilable(w.legs, C.Sell) {
        return Some(T.NotReconcilable);
      }
      if statuses.Keys != indexes {
        return Some(T.NotCovered);
      }
      var legs := UpdatedLegs(w.legs, statuses);
      var status, phase, exec := T.Active, T.SellPhase, T.SellPending;
      if T.LegUnknown in statuses.Values {
        status, exec := T.ReconciliationRequired, T.ReconRequired;
      } else if T.LegFailed in statuses.Values {
        status, exec := T.Failed, T.ExecFailed;
      } else if T.LegPartial in statuses.Values {
        exec := T.PartialFill;
      } else if statuses.Values == {T.LegFilled} {
        phase, exec := T.ReconcilePhase, T.Reconciling;
      }
      error := Finish(id, T.Workflow(w.plan, status, phase, legs), T.SellReconcile(exec), exec);
    }

    method MarkBuyReconciliationResult(id: nat, statuses: map<nat, T.LegStatus>) returns (error: Option<Error>)
      modifies this
      ensures Transacted(old(View()), old(worlds), View(), worlds, T.MarkBuy(old(View().db), id, statuses), error)
    {
      hide T.MoveAndCommit, T.Indexes, T.AllReconcilable;
      if !(statuses.Values <= T.RECONCILED) {
        return Some(T.UnsupportedStatus);
      }
      if id !in workflows || !workflows[id].status.Active? || !workflows[id].phase.BuyPhase? {
        return Some(T.WrongPhase);
      }
      var w := workflows[id];
      var indexes := T.Indexes(w.legs, C.Buy);
      if indexes == {} || !T.AllReconcilable(w.legs, C.Buy) {
        return Some(T.NotReconcilable);
      }
      if statuses.Keys != indexes {
        return Some(T.NotCovered);
      }
      var legs := UpdatedLegs(w.legs, statuses);
      var status, phase, exec := T.Active, T.BuyPhase, T.BuyPending;
      if T.LegUnknown in statuses.Values {
        status, exec := T.ReconciliationRequired, T.ReconRequired;
      } else if T.LegFailed in statuses.Values {
        status, exec := T.Failed, T.ExecFailed;
      } else if T.LegPartial in statuses.Values {
        exec := T.PartialFill;
      } else if statuses.Values == {T.LegFilled} {
        status, phase, exec := T.Complete, T.ReconcilePhase, T.Idle;
      }
      error := Finish(id, T.Workflow(w.plan, status, phase, legs), T.BuyReconcile(exec), exec);
    }

    // _persist_buy_progress
    method PersistBuyProgress(
      id: nat, statuses: map<nat, T.LegStatus>, status: T.WorkflowStatus, suffix: T.Suffix, to: T.ExecState)
      returns (error: Option<Error>)
      modifies this
      ensures Transacted(old(View()), old(worlds), View(), worlds,
                         T.PersistBuyProgress(old(View().db), id, statuses, status, suffix, to), error)
    {
      hide T.MoveAndCommit;
      if id !in workflows {
        return Some(T.UnknownWorkflow);
      }
      var w := workflows[id];
      if !w.phase.BuyPhase? {
        return Some(T.WrongPhase);
      }
      var legs := UpdatedLegs(w.legs, statuses);
      error := Finish(id, T.Workflow(w.plan, status, T.BuyPhase, legs), suffix, to);
    }

    method InstallBuyLegs(id: nat, specs: seq<T.LegSpec>) returns (error: Option<Error>)
      modifies this
      ensures Transacted(old(View()), old(worlds), View(), worlds, T.InstallBuys(old(View().db), id, specs), error)
    {
      hide T.MoveAndCommit, T.Indexes;
      for i := 0 to |specs|
        invariant forall k :: 0 <= k < i ==> T.ValidLeg(specs[k], C.Buy) && specs[k].estimate.Some?
      {
        if !T.ValidLeg(specs[i], C.Buy) || specs[i].estimate.None? {
          return Some(T.InvalidLeg);
        }
      }
      if id !in workflows || !workflows[id].status.Active? || !workflows[id].phase.ReconcilePhase? {
        return Some(T.WrongPhase);
      }
      if !machine.exec.Reconciling? {
        return Some(T.WrongExecState);
      }
      var w := workflows[id];
      for i := 0 to |w.legs|
        invariant forall k :: 0 <= k < i && w.legs[k].spec.side.Sell? ==> w.legs[k].status.LegFilled?
      {
        if w.legs[i].spec.side.Sell? && !w.legs[i].status.LegFilled? {
          return Some(T.SellNotFilled);
        }
      }
      if T.Indexes(w.legs, C.Buy) != {} {
        return Some(T.BuysAlreadyInstalled);
      }
      if specs == [] {
        error := Finish(id, w.(status := T.Complete), T.NoBuyComplete, T.Idle);
        return;
      }
      if !T.CashOk(machine.account) {
        return Some(T.CashDebt);
      }
      var planned := 0.0;
      var legs := w.legs;
      for i := 0 to |specs|
        invariant planned == T.Estimates(specs[..i])
        invariant legs == w.legs + T.PlannedLegs(specs[..i])
      {
        assert DropLast(specs[..i + 1]) == specs[..i];
        planned := planned + if specs[i].estimate.Some? then specs[i].estimate.value else 0.0;
        legs := legs + [T.Leg(specs[i], T.Planned, None)];
      }
      assert specs[..|specs|] == specs;
      if planned > machine.account.cash as real + 1.0 {
        return Some(T.PlannedExceedsCash);
      }
      error := Finish(id, w.(phase := T.BuyPhase, legs := legs), T.BuyInstalled, T.BuyPending);
    }

    method LookUpFill(key: C.FillKey) returns (r: Option<C.LedgerRow>)
      ensures r == C.FindFill(ledger, key)
    {
      var i := |ledger|;
      assert ledger[..i] == ledger;
      while i > 0
        invariant 0 <= i <= |ledger|
        invariant C.FindFill(ledger, key) == C.FindFill(ledger[..i], key)
      {
        assert DropLast(ledger[..i]) == ledger[..i - 1];
        if ledger[i - 1].event.key == key {
          return Some(ledger[i - 1]);
        }
        i := i - 1;
      }
      return None;
    }

    // apply_fill_event
    method ApplyFillEvent(event: C.FillEvent, decision: nat) returns (error: Option<Error>)
      modifies this
      ensures Transacted(old(View()), old(worlds), View(), worlds, T.ApplyFillEvent(old(View().db), event, decision), error)
    {
      var existing := LookUpFill(event.key);
      if existing.Some? {
        if existing.value != C.LedgerRow(event, decision) {
          return Some(T.CapitalFailed(C.ConflictingFill));
        }
        worlds := worlds + [View()];
        return None;
      }
      var a := machine.account;
      var cash := a.cash + event.delta;
      ledger := ledger + [C.LedgerRow(event, decision)];
      machine := machine.(account := C.Account(a.revision + 1, cash, C.Debt(cash), a.fees + event.fee));
      worlds := worlds + [View()];
      return None;
    }

    // transition_state, for control rows.
    method TransitionState(c: T.Control) returns (error: Option<Error>)
      requires c.key.ControlKey?
      modifies this
      ensures Transacted(old(View()), old(worlds), View(), worlds, T.ControlTransition(old(View().db), c), error)
    {
      hide T.ActiveIds;
      var existing := LookUpRow(c.key);
      if existing.Some? {
        if existing.value.ExecRow? || existing.value.content != c.content {
          return Some(T.ConflictingTransition);
        }
        worlds := worlds + [View()];
        return None;
      }
      if !c.allowed {
        return Some(T.ControlRefused);
      }
      if !machine.exec.Idle? {
        return Some(T.NotIdle);
      }
      if T.ActiveIds(View().db) != {} {
        return Some(T.OtherActive);
      }
      var saved := (machine, journal);
      var before := machine.account.revision;
      machine := machine.(account := machine.account.(revision := before + 1));
      journal := journal + [T.ControlRow(c.key, before, before + 1, c.content)];
      if !T.ValidMachine(View().db) {
        machine, journal := saved.0, saved.1;
        return Some(T.InvalidMachine);
      }
      worlds := worlds + [View()];
      return None;
    }

    // The broker is asked to place an order.
    method PostOrder(id: nat, leg: nat, side: C.Side)
      modifies this`posts, this`worlds
      ensures View() == old(View()).(posts := old(posts) + [X.Post(id, leg, side)])
      ensures worlds == old(worlds) + [View()]
    {
      posts := posts + [X.Post(id, leg, side)];
      worlds := worlds + [View()];
    }
  }
}
