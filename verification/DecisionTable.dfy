// classify_recovery as a decision table: for every store, whether it answers, and with which
// action; and which of the chosen actions can be refused.
module DecisionTable {
  import opened Common
  import opened Capital
  import opened ExecutionTables
  import opened Executor
  import opened ExecutionSteps
  import opened ExecutionInvariant
  import opened ExecutionKeeps
  import opened CycleSteps
  import opened CycleRuns

  /* ---- Legs of a phase ---- */

  ghost predicate SomeLeg(legs: seq<Leg>, side: Side, status: LegStatus) {
    exists i :: 0 <= i < |legs| && legs[i].spec.side == side && legs[i].status == status
  }

  ghost predicate SomeInFlight(legs: seq<Leg>, side: Side) {
    exists i :: 0 <= i < |legs| && legs[i].spec.side == side && legs[i].status in {BrokerAccepted, LegPending, LegPartial}
  }

  // An intent without an order id.
  ghost predicate SomeUnanswered(legs: seq<Leg>, side: Side) {
    exists i :: 0 <= i < |legs| && legs[i].spec.side == side && legs[i].status.IntentRecorded? && legs[i].orderId.None?
  }

  // There are legs of the side, and each has an order id as its status demands.
  ghost predicate InShape(legs: seq<Leg>, side: Side) {
    && (exists i :: 0 <= i < |legs| && legs[i].spec.side == side)
    && forall i :: 0 <= i < |legs| && legs[i].spec.side == side ==>
         && (legs[i].status.Planned? ==> legs[i].orderId.None?)
         && (!legs[i].status.Planned? && !legs[i].status.IntentRecorded? ==> legs[i].orderId.Some?)
  }

  lemma SideMembers(legs: seq<Leg>, side: Side)
    ensures forall leg :: leg in LegsOf(legs, side) <==> leg in legs && leg.spec.side == side
  {
    hide LegsOf;
    forall leg ensures leg in LegsOf(legs, side) <==> leg in legs && leg.spec.side == side {
      LegsOfMember(legs, side, leg);
    }
  }

  // What the lists of one side say, said of all legs.
  lemma SideFacts(legs: seq<Leg>, side: Side)
    ensures var sub := LegsOf(legs, side);
            && (LegShapeOk(sub) <==> InShape(legs, side))
            && (AnyAmbiguous(sub) <==> SomeUnanswered(legs, side))
            && (AnyInFlight(sub) <==> SomeInFlight(legs, side))
            && (forall status :: SomeStatus(sub, status) <==> SomeLeg(legs, side, status))
  {
    hide LegsOf;
    SideMembers(legs, side);
    ShapeOfSide(legs, LegsOf(legs, side), side);
    StatusOfSide(legs, LegsOf(legs, side), side);
    FlightOfSide(legs, LegsOf(legs, side), side);
  }

  lemma ShapeOfSide(legs: seq<Leg>, sub: seq<Leg>, side: Side)
    requires forall leg :: leg in sub <==> leg in legs && leg.spec.side == side
    ensures LegShapeOk(sub) <==> InShape(legs, side)
  {
    if LegShapeOk(sub) {
      assert sub[0] in sub;
      var m :| 0 <= m < |legs| && legs[m] == sub[0];
      forall i | 0 <= i < |legs| && legs[i].spec.side == side
        ensures (legs[i].status.Planned? ==> legs[i].orderId.None?)
        ensures !legs[i].status.Planned? && !legs[i].status.IntentRecorded? ==> legs[i].orderId.Some?
      {
        assert legs[i] in sub;
        var k :| 0 <= k < |sub| && sub[k] == legs[i];
      }
    }
    if InShape(legs, side) {
      var i :| 0 <= i < |legs| && legs[i].spec.side == side;
      assert legs[i] in sub;
      forall k | 0 <= k < |sub|
        ensures sub[k].status in {BrokerAccepted, LegPending, LegPartial, LegFilled, LegFailed, LegUnknown} ==> sub[k].orderId.Some?
        ensures sub[k].status.Planned? ==> sub[k].orderId.None?
      {
        assert sub[k] in sub;
        var m :| 0 <= m < |legs| && legs[m] == sub[k];
      }
    }
  }

  lemma StatusOfSide(legs: seq<Leg>, sub: seq<Leg>, side: Side)
    requires forall leg :: leg in sub <==> leg in legs && leg.spec.side == side
    ensures forall status :: SomeStatus(sub, status) <==> SomeLeg(legs, side, status)
  {
    forall status ensures SomeStatus(sub, status) <==> SomeLeg(legs, side, status) {
      if SomeStatus(sub, status) {
        var k :| 0 <= k < |sub| && sub[k].status == status;
        assert sub[k] in sub;
        var i :| 0 <= i < |legs| && legs[i] == sub[k];
      }
      if SomeLeg(legs, side, status) {
        var i :| 0 <= i < |legs| && legs[i].spec.side == side && legs[i].status == status;
        assert legs[i] in sub;
        var k :| 0 <= k < |sub| && sub[k] == legs[i];
      }
    }
  }

  lemma FlightOfSide(legs: seq<Leg>, sub: seq<Leg>, side: Side)
    requires forall leg :: leg in sub <==> leg in legs && leg.spec.side == side
    ensures AnyAmbiguous(sub) <==> SomeUnanswered(legs, side)
    ensures AnyInFlight(sub) <==> SomeInFlight(legs, side)
  {
    if AnyAmbiguous(sub) {
      var k :| 0 <= k < |sub| && Ambiguous(sub[k]);
      assert sub[k] in sub;
      var i :| 0 <= i < |legs| && legs[i] == sub[k];
    }
    if SomeUnanswered(legs, side) {
      var i :| 0 <= i < |legs| && legs[i].spec.side == side && legs[i].status.IntentRecorded? && legs[i].orderId.None?;
      assert legs[i] in sub;
      var k :| 0 <= k < |sub| && sub[k] == legs[i];
      assert Ambiguous(sub[k]);
    }
    if AnyInFlight(sub) {
      var k :| 0 <= k < |sub| && InFlight(sub[k]);
      assert sub[k] in sub;
      var i :| 0 <= i < |legs| && legs[i] == sub[k];
    }
    if SomeInFlight(legs, side) {
      var i :| 0 <= i < |legs| && legs[i].spec.side == side && legs[i].status in {BrokerAccepted, LegPending, LegPartial};
      assert legs[i] in sub;
      var k :| 0 <= k < |sub| && sub[k] == legs[i];
      assert InFlight(sub[k]);
    }
  }

  /* ---- The table ---- */

  // A workflow in its SELL or BUY phase that recovery can read.
  ghost predicate PhaseReadable(db: Db, id: nat, side: Side)
    requires id in db.workflows
  {
    var legs, exec := db.workflows[id].legs, db.machine.exec;
    && InShape(legs, side)
    && if SomeUnanswered(legs, side) then RequireReconciliation(db, id).Ok?
       else
         && !SomeLeg(legs, side, LegUnknown) && !SomeLeg(legs, side, LegFailed)
         && exec in {if side.Sell? then SellPending else BuyPending, PartialFill}
         && (SomeInFlight(legs, side) || (SomeLeg(legs, side, Planned) && (side.Buy? ==> CashOk(db.machine.account))))
  }

  // The machine is where the workflow's status and phase put it.
  ghost predicate Readable(db: Db, id: nat)
    requires id in db.workflows
  {
    var w, exec := db.workflows[id], db.machine.exec;
    match w.status
    case Complete => exec.Idle?
    case Failed => exec.ExecFailed?
    case ReconciliationRequired => exec.ReconRequired?
    case Active =>
      && !exec.ReconRequired?
      && match w.phase
         case NoPhase => exec.PlanCreated? && forall i :: 0 <= i < |w.legs| ==> !w.legs[i].spec.side.Buy?
         case ReconcilePhase =>
           exec.Reconciling? && forall i :: 0 <= i < |w.legs| ==> w.legs[i].spec.side.Sell? && w.legs[i].status.LegFilled?
         case SellPhase => PhaseReadable(db, id, Sell)
         case BuyPhase => PhaseReadable(db, id, Buy)
  }

  // The action for a workflow that recovery can read.
  ghost function ActionFor(w: Workflow): Action {
    match w.status
    case Complete => AlreadyComplete
    case Failed => FailedReview
    case ReconciliationRequired => ManualReconciliation
    case Active =>
      match w.phase
      case NoPhase => StartAction
      case ReconcilePhase => ReplanBuys
      case SellPhase =>
        if SomeUnanswered(w.legs, Sell) then ManualReconciliation
        else if SomeLeg(w.legs, Sell, Planned) then SubmitSell
        else ReconcileSell
      case BuyPhase =>
        if SomeUnanswered(w.legs, Buy) then ManualReconciliation
        else if SomeInFlight(w.legs, Buy) then ReconcileBuy
        else SubmitBuy
  }

  // The store is left alone, except that an unanswered intent is made durable as such.
  ghost predicate LeavesStore(db: Db, next: Db, id: nat)
    requires id in db.workflows
  {
    var w := db.workflows[id];
    if w.status.Active? && ((w.phase.SellPhase? && SomeUnanswered(w.legs, Sell)) || (w.phase.BuyPhase? && SomeUnanswered(w.legs, Buy))) then
      && next.workflows == db.workflows[id := w.(status := ReconciliationRequired)]
      && next.ledger == db.ledger && next.machine.account.cash == db.machine.account.cash
    else next == db
  }

  lemma WorkflowTable(db: Db, id: nat)
    requires id in db.workflows
    ensures ClassifyWorkflow(db, id).Ok? <==> Readable(db, id)
    ensures ClassifyWorkflow(db, id).Ok? ==>
              && ClassifyWorkflow(db, id).value.1 == Decision(Some(id), ActionFor(db.workflows[id]))
              && LeavesStore(db, ClassifyWorkflow(db, id).value.0, id)
  {
    hide LegsOf, LegShapeOk, AnyAmbiguous, AnyInFlight, SomeStatus, InShape, SomeLeg, SomeInFlight, SomeUnanswered, RequireReconciliation, CashOk;
    var w := db.workflows[id];
    SideFacts(w.legs, Sell);
    SideFacts(w.legs, Buy);
    NoBuys(w.legs);
    StopIs(db, id);
  }

  lemma NoBuys(legs: seq<Leg>)
    ensures LegsOf(legs, Buy) == [] <==> forall i :: 0 <= i < |legs| ==> !legs[i].spec.side.Buy?
  {
    hide LegsOf;
    SideMembers(legs, Buy);
    var sub := LegsOf(legs, Buy);
    if sub != [] {
      assert sub[0] in sub;
    } else {
      forall i | 0 <= i < |legs| ensures !legs[i].spec.side.Buy? {
        assert legs[i] in legs && legs[i] !in sub;
      }
    }
  }

  // Stopping on an unanswered intent changes the workflow's status, and moves the machine.
  lemma StopIs(db: Db, id: nat)
    requires id in db.workflows
    ensures var w, r := db.workflows[id], RequireReconciliation(db, id);
            w.status.Active? && (SomeUnanswered(w.legs, Sell) || SomeUnanswered(w.legs, Buy)) && r.Ok? ==>
              && r.value.1
              && r.value.0.workflows == db.workflows[id := w.(status := ReconciliationRequired)]
              && r.value.0.ledger == db.ledger && r.value.0.machine.account.cash == db.machine.account.cash
  {
    hide MoveAndCommit;
    var w, r := db.workflows[id], RequireReconciliation(db, id);
    if w.status.Active? && (SomeUnanswered(w.legs, Sell) || SomeUnanswered(w.legs, Buy)) && r.Ok? {
      AnswerMissing(w.legs);
      MovesRecord(db, id, w.(status := ReconciliationRequired), AmbiguousIntent, ReconRequired);
    }
  }

  lemma AnswerMissing(legs: seq<Leg>)
    requires SomeUnanswered(legs, Sell) || SomeUnanswered(legs, Buy)
    ensures AnyAmbiguous(legs)
  {
    var i :| 0 <= i < |legs| && legs[i].status.IntentRecorded? && legs[i].orderId.None?;
    assert Ambiguous(legs[i]);
  }

  lemma MovesRecord(db: Db, id: nat, w: Workflow, suffix: Suffix, to: ExecState)
    requires MoveAndCommit(Put(db, id, w), id, suffix, to).Ok?
    ensures var next := MoveAndCommit(Put(db, id, w), id, suffix, to).value;
            next.workflows == db.workflows[id := w] && next.ledger == db.ledger && next.machine.account.cash == db.machine.account.cash
  {
  }

  // At most one workflow is not complete.
  ghost predicate OneOpen(db: Db) {
    forall a, b :: IsOpen(db, a) && IsOpen(db, b) ==> a == b
  }

  ghost predicate IsOpen(db: Db, id: nat) {
    id in db.workflows && !db.workflows[id].status.Complete?
  }

  lemma OpenSet(db: Db)
    ensures OneOpen(db) <==> |NonComplete(db)| <= 1
    ensures forall id :: id in NonComplete(db) <==> IsOpen(db, id)
  {
    var open := NonComplete(db);
    if OneOpen(db) {
      forall a, b | a in open && b in open ensures a == b {
        assert IsOpen(db, a) && IsOpen(db, b);
      }
      AtMostOne(open);
    }
    if |open| <= 1 {
      forall a, b | IsOpen(db, a) && IsOpen(db, b) ensures a == b {
        assert a in open && b in open;
        assert open != {};
        Single(open);
      }
    }
  }

  // classify_recovery, asked without a workflow: it answers exactly if at most one workflow is open,
  // the machine is IDLE when none is, and the open one can be read; and then with this action.
  lemma ClassifyTable(db: Db)
    ensures Classify(db, None).Ok? <==>
            && OneOpen(db)
            && (forall id :: IsOpen(db, id) ==> Readable(db, id))
            && ((forall id :: id in db.workflows ==> db.workflows[id].status.Complete?) ==> db.machine.exec.Idle?)
    ensures Classify(db, None).Ok? ==>
              var (next, d) := Classify(db, None).value;
              && (forall id :: IsOpen(db, id) ==> d == Decision(Some(id), ActionFor(db.workflows[id])) && LeavesStore(db, next, id))
              && ((forall id :: id in db.workflows ==> db.workflows[id].status.Complete?) ==> d == Decision(None, NoWorkflow) && next == db)
  {
    hide ClassifyWorkflow, Readable, ActionFor, LeavesStore, OneOpen;
    OpenSet(db);
    var open := NonComplete(db);
    if |open| == 1 {
      var id := Only(open);
      Single(open);
      WorkflowTable(db, id);
      assert forall other :: IsOpen(db, other) <==> other == id;
    } else if |open| == 0 {
      assert forall id :: id in db.workflows ==> id !in open;
    } else {
      assert open != {};
    }
  }

  // Asked about a workflow by name: the same for the open one; otherwise only for a complete one.
  lemma ClassifyNamed(db: Db, id: nat)
    ensures Classify(db, Some(id)).Ok? <==>
            && OneOpen(db) && id in db.workflows && Readable(db, id)
            && (forall other :: IsOpen(db, other) ==> other == id)
            && ((forall other :: other in db.workflows ==> db.workflows[other].status.Complete?) ==> db.machine.exec.Idle?)
    ensures Classify(db, Some(id)).Ok? ==>
              && Classify(db, Some(id)).value.1 == Decision(Some(id), ActionFor(db.workflows[id]))
              && LeavesStore(db, Classify(db, Some(id)).value.0, id)
  {
    hide ClassifyWorkflow, Readable, ActionFor, LeavesStore, OneOpen;
    OpenSet(db);
    var open := NonComplete(db);
    if id in db.workflows {
      WorkflowTable(db, id);
    }
    if |open| == 1 {
      Single(open);
      var only := Only(open);
      assert IsOpen(db, only) && forall other :: IsOpen(db, other) <==> other == only;
      assert open != {} && only in db.workflows && !db.workflows[only].status.Complete?;
      if only == id {
        assert Classify(db, Some(id)) == ClassifyWorkflow(db, id);
      } else {
        assert Classify(db, Some(id)).Err?;
      }
    } else if |open| == 0 {
      assert forall other :: other in db.workflows ==> other !in open;
    } else {
      assert open != {};
    }
  }
}
