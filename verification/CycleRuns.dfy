// Whole single-process runs: recovery always has an answer, the machine and the live workflow
// stay coupled, POSTs keep their order, and nothing moves once a workflow has left ACTIVE.
module CycleRuns {
  import opened Common
  import opened Capital
  import opened ExecutionTables
  import opened Executor
  import opened ExecutionSteps
  import opened ExecutionInvariant
  import opened ExecutionKeeps
  import opened PostOrder
  import opened CycleSteps

  /* ---- Classification ---- */

  lemma {:induction false} AtMostOne(s: set<nat>)
    requires forall a, b :: a in s && b in s ==> a == b
    ensures |s| <= 1
  {
    if s != {} {
      var x :| x in s;
      assert s == {x};
    }
  }

  lemma OpenIsUnfinished(db: Db)
    requires Inv(db)
    ensures |NonComplete(db)| <= 1 && |Awaiting(db)| <= 1
    ensures NonComplete(db) == {} ==> db.machine.exec.Idle?
    ensures Awaiting(db) != {} ==> NonComplete(db) == {}
  {
    hide AwaitsControl, LegsOk, Fits, KeysOk;
    var open := NonComplete(db) + Awaiting(db);
    forall a, b | a in open && b in open ensures a == b {
      assert Unfinished(db, a) && Unfinished(db, b);
    }
    assert NonComplete(db) <= open && Awaiting(db) <= open;
    AtMostOne(NonComplete(db));
    AtMostOne(Awaiting(db));
    if NonComplete(db) == {} {
      forall id | id in db.workflows ensures db.workflows[id].status.Complete? {
        assert id !in NonComplete(db);
      }
    }
    if Awaiting(db) != {} {
      var a :| a in Awaiting(db);
      AwaitsIsComplete(db, a);
      forall id | id in open ensures id == a {
      }
    }
  }

  lemma AwaitsIsComplete(db: Db, id: nat)
    requires id in Awaiting(db)
    ensures db.workflows[id].status.Complete?
  {
  }

  lemma AmbiguousIsLeg(legs: seq<Leg>, side: Side)
    requires AnyAmbiguous(LegsOf(legs, side))
    ensures AnyAmbiguous(legs)
  {
    var sub := LegsOf(legs, side);
    var k :| 0 <= k < |sub| && Ambiguous(sub[k]);
    LegsOfMember(legs, side, sub[k]);
    var i :| 0 <= i < |legs| && legs[i] == sub[k];
    assert Ambiguous(legs[i]);
  }

  // The legs of the phase are in shape, none bad.
  lemma PhaseLegs(w: Workflow, exec: ExecState, a: Account)
    requires w.status.Active? && Fits(w, exec, a) && LegsOk(w.legs) && (w.phase.SellPhase? || w.phase.BuyPhase?)
    ensures var legs := LegsOf(w.legs, if w.phase.SellPhase? then Sell else Buy);
            && LegShapeOk(legs) && !SomeStatus(legs, LegUnknown) && !SomeStatus(legs, LegFailed)
            && (exists i :: 0 <= i < |legs| && !legs[i].status.LegFilled?)
  {
    var side := if w.phase.SellPhase? then Sell else Buy;
    var legs := LegsOf(w.legs, side);
    var i :| 0 <= i < |w.legs| && w.legs[i].spec.side == side && !w.legs[i].status.LegFilled?;
    LegsOfMember(w.legs, side, w.legs[i]);
    forall k | 0 <= k < |legs| ensures NotBad(legs[k]) && LegOk(legs[k]) {
      LegsOfMember(w.legs, side, legs[k]);
      var m :| 0 <= m < |w.legs| && w.legs[m] == legs[k];
    }
    var k :| 0 <= k < |legs| && legs[k] == w.legs[i];
  }

  // Without an ambiguous intent, a leg that is not filled is planned or in flight.
  lemma QuietLegs(legs: seq<Leg>)
    requires forall i :: 0 <= i < |legs| ==> LegOk(legs[i]) && NotBad(legs[i])
    requires !AnyAmbiguous(legs)
    ensures forall i :: 0 <= i < |legs| ==> SettledOrPlanned(legs[i]) || InFlight(legs[i])
  {
    forall i | 0 <= i < |legs| ensures SettledOrPlanned(legs[i]) || InFlight(legs[i]) {
      assert LegOk(legs[i]) && !Ambiguous(legs[i]);
    }
  }

  lemma PhaseLegsOk(w: Workflow, exec: ExecState, a: Account, side: Side)
    requires w.status.Active? && Fits(w, exec, a) && LegsOk(w.legs) && PhaseOf(w.phase, side)
    ensures forall i :: 0 <= i < |LegsOf(w.legs, side)| ==> LegOk(LegsOf(w.legs, side)[i]) && NotBad(LegsOf(w.legs, side)[i])
  {
    var legs := LegsOf(w.legs, side);
    forall k | 0 <= k < |legs| ensures NotBad(legs[k]) && LegOk(legs[k]) {
      LegsOfMember(w.legs, side, legs[k]);
      var m :| 0 <= m < |w.legs| && w.legs[m] == legs[k];
    }
  }

  // What makes a submission safe.
  ghost predicate SafeToSubmit(db: Db, id: nat, side: Side) {
    && ActiveIn(db, id) && PhaseOf(db.workflows[id].phase, side)
    && (forall i :: 0 <= i < |db.workflows[id].legs| ==> !Ambiguous(db.workflows[id].legs[i]))
    && (side.Buy? ==>
          && db.machine.account.debt <= 1 && db.machine.account.cash >= -1
          && forall i :: 0 <= i < |db.workflows[id].legs| ==> SettledOrPlanned(db.workflows[id].legs[i]))
  }

  ghost predicate InFlightIn(db: Db, id: nat, side: Side) {
    && ActiveIn(db, id) && PhaseOf(db.workflows[id].phase, side)
    && exists i :: 0 <= i < |db.workflows[id].legs| && InFlight(db.workflows[id].legs[i])
  }

  ghost predicate SoundDecision(db: Db, d: Decision) {
    match d.action
    case NoWorkflow => d.workflow.None? && NonComplete(db) == {}
    case SubmitSell => d.workflow.Some? && SafeToSubmit(db, d.workflow.value, Sell)
    case SubmitBuy => d.workflow.Some? && SafeToSubmit(db, d.workflow.value, Buy)
    case ReconcileSell => d.workflow.Some? && InFlightIn(db, d.workflow.value, Sell)
    case ReconcileBuy => d.workflow.Some? && InFlightIn(db, d.workflow.value, Buy)
    case StartAction => d.workflow.Some? && ActiveIn(db, d.workflow.value) && db.workflows[d.workflow.value].phase.NoPhase?
    case ReplanBuys => d.workflow.Some? && ActiveIn(db, d.workflow.value) && db.workflows[d.workflow.value].phase.ReconcilePhase?
    case ManualReconciliation => d.workflow.Some? && d.workflow.value in db.workflows && db.workflows[d.workflow.value].status.ReconciliationRequired?
    case FailedReview => d.workflow.Some? && d.workflow.value in db.workflows && db.workflows[d.workflow.value].status.Failed?
    case AlreadyComplete => false
  }

  lemma SellDecision(db: Db, id: nat)
    requires Inv(db) && ActiveIn(db, id) && db.workflows[id].phase.SellPhase?
    requires !AnyAmbiguous(LegsOf(db.workflows[id].legs, Sell))
    ensures var r := ClassifySell(id, LegsOf(db.workflows[id].legs, Sell), db.machine.exec);
            r.Ok? && SoundDecision(db, r.value)
  {
    hide AwaitsControl, KeysOk, Alone, LegsOf;
    var w := db.workflows[id];
    var legs := LegsOf(w.legs, Sell);
    PlanIs(db, id);
    PhaseLegs(w, db.machine.exec, db.machine.account);
    PhaseLegsOk(w, db.machine.exec, db.machine.account, Sell);
    QuietLegs(legs);
    forall i | 0 <= i < |w.legs| ensures !Ambiguous(w.legs[i]) {
      LegsOfMember(w.legs, Sell, w.legs[i]);
      NotAmbiguous(legs, w.legs[i]);
    }
    if !SomeStatus(legs, Planned) {
      var k :| 0 <= k < |legs| && !legs[k].status.LegFilled?;
      assert InFlight(legs[k]);
      LegsOfMember(w.legs, Sell, legs[k]);
      var m :| 0 <= m < |w.legs| && w.legs[m] == legs[k];
      assert InFlight(w.legs[m]);
    }
  }

  lemma NotAmbiguous(legs: seq<Leg>, leg: Leg)
    requires leg in legs && !AnyAmbiguous(legs)
    ensures !Ambiguous(leg)
  {
    var k :| 0 <= k < |legs| && legs[k] == leg;
    assert !Ambiguous(legs[k]);
  }

  lemma BuyDecision(db: Db, id: nat)
    requires Inv(db) && ActiveIn(db, id) && db.workflows[id].phase.BuyPhase?
    requires !AnyAmbiguous(LegsOf(db.workflows[id].legs, Buy))
    ensures var r := ClassifyBuy(id, LegsOf(db.workflows[id].legs, Buy), db.machine.exec, db.machine.account);
            r.Ok? && SoundDecision(db, r.value)
  {
    hide AwaitsControl, KeysOk, Alone, LegsOf;
    var w := db.workflows[id];
    var legs := LegsOf(w.legs, Buy);
    PlanIs(db, id);
    PhaseLegs(w, db.machine.exec, db.machine.account);
    PhaseLegsOk(w, db.machine.exec, db.machine.account, Buy);
    QuietLegs(legs);
    if AnyInFlight(legs) {
      var k :| 0 <= k < |legs| && InFlight(legs[k]);
      LegsOfMember(w.legs, Buy, legs[k]);
      var m :| 0 <= m < |w.legs| && w.legs[m] == legs[k];
      assert InFlight(w.legs[m]);
    } else {
      forall i | 0 <= i < |w.legs| ensures !Ambiguous(w.legs[i]) && SettledOrPlanned(w.legs[i]) {
        LegsOfMember(w.legs, Buy, w.legs[i]);
        if w.legs[i].spec.side.Buy? {
          NotAmbiguous(legs, w.legs[i]);
          var k :| 0 <= k < |legs| && legs[k] == w.legs[i];
          assert !InFlight(legs[k]);
        }
      }
      var k :| 0 <= k < |legs| && !legs[k].status.LegFilled?;
      assert legs[k].status == Planned;
    }
  }

  // A decision, and the store it leaves: the same, or with an ambiguous intent made durable.
  ghost predicate Decided(db: Db, r: Result<(Db, Decision), ExecError>) {
    && r.Ok? && SoundDecision(r.value.0, r.value.1)
    && (r.value.0 == db
        || exists id :: RequireReconciliation(db, id).Ok? && RequireReconciliation(db, id).value.0 == r.value.0)
  }

  lemma ActiveDecision(db: Db, id: nat)
    requires Inv(db) && ActiveIn(db, id)
    ensures Decided(db, ClassifyActive(db, id))
  {
    hide AwaitsControl, KeysOk, Alone, RequireReconciliation, LegsOf, ClassifySell, ClassifyBuy, LegShapeOk;
    var w := db.workflows[id];
    PlanIs(db, id);
    if w.phase.SellPhase? || w.phase.BuyPhase? {
      var side := if w.phase.SellPhase? then Sell else Buy;
      PhaseLegs(w, db.machine.exec, db.machine.account);
      if AnyAmbiguous(LegsOf(w.legs, side)) {
        AmbiguousIsLeg(w.legs, side);
        RequiringKeeps(db, id);
      } else if side.Sell? {
        SellDecision(db, id);
      } else {
        BuyDecision(db, id);
      }
    } else {
      OnlySells(w.legs);
    }
  }

  lemma OnlySells(legs: seq<Leg>)
    requires forall i :: 0 <= i < |legs| ==> legs[i].spec.side.Sell?
    ensures LegsOf(legs, Buy) == []
  {
    if LegsOf(legs, Buy) != [] {
      LegsOfMember(legs, Buy, LegsOf(legs, Buy)[0]);
    }
  }

  // Recovery is total and sound: in every state that keeps the invariant classify_recovery
  // answers, and lets an order out only when that is safe.
  lemma RecoveryIsTotal(db: Db)
    requires Inv(db)
    ensures Decided(db, Classify(db, None))
  {
    hide Inv, ClassifyActive, AwaitsControl, RequireReconciliation;
    OpenIsUnfinished(db);
    if NonComplete(db) != {} {
      var id := Only(NonComplete(db));
      PlanIs(db, id);
      if db.workflows[id].status.Active? {
        NotRequired(db, id);
        ActiveDecision(db, id);
      }
    }
  }

  lemma NotRequired(db: Db, id: nat)
    requires Inv(db) && ActiveIn(db, id)
    ensures !db.machine.exec.ReconRequired?
  {
    assert Fits(db.workflows[id], db.machine.exec, db.machine.account);
  }

  /* ---- One cycle ---- */

  lemma PlanSteps(w: World, o: Oracle)
    requires NonComplete(w.db) == {} && Awaiting(w.db) == {}
    ensures Steps(w, PlanNewWork(w, o).worlds)
  {
    hide Steps, Controls, CreateWorkflow, StartWorkflow, AwaitsControl, Takes;
    ControlsSteps(w, o.prepare);
    var prepared := Controls(w, o.prepare);
    if prepared.outcome.Ok? {
      var w1 := At(w, prepared.worlds);
      match o.plan
      case PlanNothing =>
      case PlanCommit(decision, rebalance) =>
        ControlsSteps(w1, ControlTarget(decision, rebalance, o.commit));
        StepsThen(w, prepared.worlds, Controls(w1, ControlTarget(decision, rebalance, o.commit)).worlds);
      case PlanOrders(plan, sells) =>
        assert NonComplete(w1.db) == {} && Awaiting(w1.db) == {};
        CreateTakes(w1, plan, sells);
        CommitSteps(w1, CreateWorkflow(w1.db, plan, sells), Creating(plan, sells));
        var created := Commit(w1, CreateWorkflow(w1.db, plan, sells));
        StepsThen(w, prepared.worlds, created.worlds);
        if created.outcome.Ok? {
          EndThen(w, prepared.worlds, created.worlds);
          var w2 := At(w1, created.worlds);
          StartSteps(w2, Id(plan));
          StepsThen(w, prepared.worlds + created.worlds, Commit(w2, StartWorkflow(w2.db, Id(plan))).worlds);
        }
    }
  }

  lemma CreateTakes(w: World, plan: Plan, specs: seq<LegSpec>)
    requires NonComplete(w.db) == {} && Awaiting(w.db) == {}
    ensures CreateWorkflow(w.db, plan, specs).Ok? ==>
              Takes(w, w.(db := CreateWorkflow(w.db, plan, specs).value), Creating(plan, specs))
  {
    hide CreateWorkflow;
  }

  lemma StartSteps(w: World, id: nat)
    ensures Steps(w, Commit(w, StartWorkflow(w.db, id)).worlds)
  {
    hide Steps, StartWorkflow;
    CommitSteps(w, StartWorkflow(w.db, id), Starting(id));
  }

  lemma InstallSteps(w: World, id: nat, specs: seq<LegSpec>)
    ensures Steps(w, Commit(w, InstallBuys(w.db, id, specs)).worlds)
  {
    hide Steps, InstallBuys;
    CommitSteps(w, InstallBuys(w.db, id, specs), Installing(id, specs));
  }

  lemma ActSteps(w: World, d: Decision, o: Oracle)
    requires Good(w) && SoundDecision(w.db, d) && (d.action.NoWorkflow? ==> Awaiting(w.db) == {})
    ensures Steps(w, Act(w, d, o).worlds)
  {
    hide Good, Steps, PlanNewWork, StartWorkflow, InstallBuys, Commit, SubmitCurrent, ReconcileCurrent, Awaiting, SafeToSubmit;
    StepsNone(w);
    match d.action
    case NoWorkflow => PlanSteps(w, o);
    case StartAction => StartSteps(w, d.workflow.value);
    case SubmitSell => SubmitCurrentSteps(w, d.workflow.value, o.pendingKnown, o.replies);
    case SubmitBuy => SubmitCurrentSteps(w, d.workflow.value, o.pendingKnown, o.replies);
    case ReconcileSell => ReconcileSteps(w, d.workflow.value, o.reconcile);
    case ReconcileBuy => ReconcileSteps(w, d.workflow.value, o.reconcile);
    case ReplanBuys =>
      if o.replan.Some? {
        InstallSteps(w, d.workflow.value, o.replan.value);
      }
    case _ =>
  }

  lemma ClassifyStep(w: World, next: Db)
    requires next == w.db || exists id :: RequireReconciliation(w.db, id).Ok? && RequireReconciliation(w.db, id).value.0 == next
    ensures Steps(w, [w.(db := next)])
  {
    hide Steps, RequireReconciliation;
    if next == w.db {
      assert Takes(w, w.(db := next), Stay);
      StepsOne(w, w.(db := next), Stay);
    } else {
      var id :| RequireReconciliation(w.db, id).Ok? && RequireReconciliation(w.db, id).value.0 == next;
      RequireTakes(w, w.(db := next), id);
      StepsOne(w, w.(db := next), Requiring(id));
    }
  }

  // With every possible answer from outside, a cycle takes only allowed steps.
  lemma CycleTakesSteps(w: World, o: Oracle)
    requires Good(w)
    ensures Steps(w, Cycle(w, o).worlds)
  {
    hide Inv, PostsOk, Steps, Classify, Act, Controls, AwaitsControl, SoundDecision;
    StepsNone(w);
    OpenIsUnfinished(w.db);
    if |Awaiting(w.db)| == 1 {
      var plan := w.db.workflows[Only(Awaiting(w.db))].plan;
      ControlsSteps(w, ControlTarget(plan.decision, plan.rebalance, o.finalize));
    } else {
      RecoveryIsTotal(w.db);
      var (db, d) := Classify(w.db, None).value;
      var w1 := w.(db := db);
      ClassifyStep(w, db);
      StepsKeepGood(w, [w1]);
      NothingAwaits(w.db, db, d);
      ActSteps(w1, d, o);
      StepsThen(w, [w1], Act(w1, d, o).worlds);
    }
  }

  lemma NothingAwaits(db: Db, next: Db, d: Decision)
    requires |Awaiting(db)| == 0 && Classify(db, None) == Ok((next, d)) && SoundDecision(next, d)
    ensures d.action.NoWorkflow? ==> Awaiting(next) == {}
  {
    hide AwaitsControl, RequireReconciliation, ClassifyActive;
    if d.action.NoWorkflow? {
      NoWorkflowSame(db, next, d);
    }
  }

  lemma NoWorkflowSame(db: Db, next: Db, d: Decision)
    requires Classify(db, None) == Ok((next, d)) && d.action.NoWorkflow?
    ensures next == db
  {
    hide AwaitsControl, RequireReconciliation;
  }

  /* ---- Runs ---- */

  // A start: no workflow, nothing posted, debt as the cash says.
  ghost predicate FreshStart(w: World) {
    var account := w.db.machine.account;
    account.debt == Debt(account.cash) && w == World(Initial(account), [])
  }

  lemma FreshStartIsGood(w: World)
    requires FreshStart(w)
    ensures Good(w)
  {
    InitialInv(w.db.machine.account);
  }

  lemma CycleKeeps(w: World, o: Oracle, stop: nat)
    requires Good(w)
    ensures Good(Stopped(w, Cycle(w, o), stop)) && Evolves(w, Stopped(w, Cycle(w, o), stop))
    ensures var t := Cycle(w, o); Steps(w, if stop <= |t.worlds| then t.worlds[..stop] else t.worlds)
  {
    hide Inv, PostsOk, Steps, Cycle, Evolves;
    CycleTakesSteps(w, o);
    var worlds := Cycle(w, o).worlds;
    if stop <= |worlds| {
      StepsPrefix(w, worlds, stop);
    }
    StepsKeepPosts(w, if stop <= |worlds| then worlds[..stop] else worlds);
  }

  // Every state of every run, however often it is stopped and whatever the broker says: the
  // invariant holds, recovery answers soundly, and the POSTs are in order.
  lemma {:induction false} EveryRun(start: World, steps: seq<CycleStep>)
    requires FreshStart(start)
    ensures var w := RunCycles(start, steps);
            && Inv(w.db) && PostsOk(w)
            && Decided(w.db, Classify(w.db, None))
            && |NonComplete(w.db)| <= 1 && |Awaiting(w.db)| <= 1
  {
    hide Cycle, Inv, PostsOk, Decided;
    if steps == [] {
      FreshStartIsGood(start);
    } else {
      EveryRun(start, DropLast(steps));
      CycleKeeps(RunCycles(start, DropLast(steps)), Last(steps).oracle, Last(steps).stop);
    }
    var w := RunCycles(start, steps);
    RecoveryIsTotal(w.db);
    OpenIsUnfinished(w.db);
  }

  // Once a workflow has left ACTIVE, its record never changes and nothing more is POSTed for it.
  lemma {:induction false} NothingAfterActive(start: World, steps: seq<CycleStep>, more: seq<CycleStep>)
    requires FreshStart(start)
    ensures Evolves(RunCycles(start, steps), RunCycles(start, steps + more))
  {
    hide Cycle, Evolves, FreshStart, Inv, PostsOk, Decided, Steps;
    if more == [] {
      assert steps + more == steps;
      SameRecords(RunCycles(start, steps), RunCycles(start, steps));
    } else {
      NothingAfterActive(start, steps, DropLast(more));
      assert DropLast(steps + more) == steps + DropLast(more);
      var w := RunCycles(start, steps + DropLast(more));
      EveryRun(start, steps + DropLast(more));
      CycleKeeps(w, Last(more).oracle, Last(more).stop);
      EvolvesTwice(RunCycles(start, steps), w, RunCycles(start, steps + more));
    }
  }
}
