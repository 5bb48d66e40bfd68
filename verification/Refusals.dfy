// Which of the actions that recovery chooses the executor can refuse as not ready for its phase.
module Refusals {
  import opened Common
  import opened Capital
  import opened ExecutionTables
  import opened Executor
  import opened ExecutionSteps
  import opened ExecutionInvariant
  import opened ExecutionKeeps
  import opened CycleSteps
  import opened CycleRuns
  import opened DecisionTable

  predicate NotReady<T>(r: Result<T, ExecError>) {
    r.Err? && r.error.PhaseNotReady?
  }

  /* ---- Errors raised elsewhere ---- */

  lemma MoveIsReady(db: Db, id: nat, suffix: Suffix, to: ExecState)
    ensures !NotReady(MoveAndCommit(db, id, suffix, to))
  {
  }

  lemma RequireIsReady(db: Db, id: nat)
    ensures !NotReady(RequireReconciliation(db, id))
  {
    hide MoveAndCommit;
    if id in db.workflows {
      MoveIsReady(Put(db, id, db.workflows[id].(status := ReconciliationRequired)), id, AmbiguousIntent, ReconRequired);
    }
  }

  lemma {:induction false} SubmitLegsIsReady(w: World, id: nat, side: Side, candidates: seq<nat>, replies: seq<PostReply>)
    ensures !NotReady(SubmitLegs(w, id, side, candidates, replies).outcome)
    decreases |candidates|
  {
    hide RequireReconciliation;
    if candidates != [] && RecordIntent(w.db, id, candidates[0]).Ok? {
      var db := RecordIntent(w.db, id, candidates[0]).value;
      RequireIsReady(db, id);
      var reply := if replies == [] then Raised else replies[0];
      if reply.Accepted? && RecordAcceptance(db, id, candidates[0], reply.orderId).Ok? {
        var w3 := World(RecordAcceptance(db, id, candidates[0], reply.orderId).value, w.posts + [Post(id, candidates[0], side)]);
        SubmitLegsIsReady(w3, id, side, candidates[1..], replies[1..]);
      }
    }
  }

  lemma {:induction false} ApplyEventsErrors(w: World, events: seq<FillEvent>, decision: nat)
    ensures var r := ApplyEvents(w, events, decision).outcome; r.Err? ==> r.error.CapitalFailed?
    decreases |events|
  {
    if events != [] && ApplyFillEvent(w.db, events[0], decision).Ok? {
      ApplyEventsErrors(w.(db := ApplyFillEvent(w.db, events[0], decision).value), events[1..], decision);
    }
  }

  lemma {:induction false} ApplyReportsErrors(
    w: World, decision: nat, legs: seq<Leg>, side: Side, indexes: seq<nat>, reply: ReconcileReply)
    ensures var r := ApplyReports(w, decision, legs, side, indexes, reply).outcome;
            r.Err? ==> r.error.UnknownLeg? || r.error.SideMismatch? || r.error.CapitalFailed?
    decreases |indexes|
  {
    hide ApplyEvents, NormalizeOrderFills;
    if indexes != [] && indexes[0] < |legs| {
      var orderId := OrderId(legs[indexes[0]]);
      match ReportFor(reply, orderId).history
      case None => ApplyReportsErrors(w, decision, legs, side, indexes[1..], reply);
      case Some(history) =>
        var events := NormalizeOrderFills(HistoricalOrder(orderId, history.side, history.fills));
        if events.Ok? {
          ApplyEventsErrors(w, events.value, decision);
          ApplyReportsErrors(At(w, ApplyEvents(w, events.value, decision).worlds), decision, legs, side, indexes[1..], reply);
        }
    }
  }

  lemma MarkSellIsReady(w: World, id: nat, statuses: map<nat, LegStatus>, reply: ReconcileReply)
    ensures !NotReady(MarkSellReported(w, id, statuses, reply).outcome)
  {
    hide MoveAndCommit, SellVerdict;
    if id in w.db.workflows {
      var wf, v := w.db.workflows[id], SellVerdict(statuses);
      MoveIsReady(Put(w.db, id, Workflow(wf.plan, v.status, v.phase, WithStatuses(wf.legs, statuses))), id, SellReconcile(v.exec), v.exec);
    }
  }

  lemma ProgressIsReady(db: Db, id: nat, statuses: map<nat, LegStatus>, status: WorkflowStatus, suffix: Suffix, to: ExecState)
    ensures !NotReady(PersistBuyProgress(db, id, statuses, status, suffix, to))
  {
    hide MoveAndCommit;
    if id in db.workflows {
      var wf := db.workflows[id];
      MoveIsReady(Put(db, id, Workflow(wf.plan, status, BuyPhase, WithStatuses(wf.legs, statuses))), id, suffix, to);
    }
  }

  lemma MarkBuyIsReady(db: Db, id: nat, statuses: map<nat, LegStatus>)
    ensures !NotReady(MarkBuy(db, id, statuses))
  {
    hide MoveAndCommit, BuyVerdict;
    if id in db.workflows {
      var wf, v := db.workflows[id], BuyVerdict(statuses);
      MoveIsReady(Put(db, id, Workflow(wf.plan, v.status, v.phase, WithStatuses(wf.legs, statuses))), id, BuyReconcile(v.exec), v.exec);
    }
  }

  lemma MarkBuyReportedIsReady(w: World, id: nat, legs: seq<Leg>, statuses: map<nat, LegStatus>, first: nat, reply: ReconcileReply)
    ensures !NotReady(MarkBuyReported(w, id, legs, statuses, first, reply).outcome)
  {
    hide PersistBuyProgress, MarkBuy, PlannedIndexes;
    ProgressIsReady(w.db, id, statuses, ReconciliationRequired, BuyUnknown, ReconRequired);
    ProgressIsReady(w.db, id, statuses, Failed, BuyFailed, ExecFailed);
    ProgressIsReady(w.db, id, statuses, Active, BuyPartial, PartialFill);
    ProgressIsReady(w.db, id, statuses, Active, BuyStillPending, BuyPending);
    ProgressIsReady(w.db, id, statuses, ReconciliationRequired, BuyCashBreach, ReconRequired);
    ProgressIsReady(w.db, id, statuses, Active, BuyLegFilled(first), BuyPending);
    MarkBuyIsReady(w.db, id, map i | i in Indexes(legs, Buy) :: LegFilled);
  }

  lemma StartIsReady(db: Db, id: nat)
    ensures !NotReady(StartWorkflow(db, id))
  {
    hide MoveAndCommit;
    if id in db.workflows {
      MoveIsReady(Put(db, id, db.workflows[id].(phase := SellPhase)), id, Start, SellPending);
      MoveIsReady(Put(db, id, db.workflows[id].(phase := ReconcilePhase)), id, Start, Reconciling);
    }
  }

  lemma CreateIsReady(db: Db, plan: Plan, specs: seq<LegSpec>)
    ensures !NotReady(CreateWorkflow(db, plan, specs))
  {
    hide MoveAndCommit;
    MoveIsReady(Put(db, Id(plan), Workflow(plan, Active, NoPhase, PlannedLegs(specs))), Id(plan), Created, PlanCreated);
  }

  lemma InstallIsReady(db: Db, id: nat, specs: seq<LegSpec>)
    ensures !NotReady(InstallBuys(db, id, specs))
  {
    hide MoveAndCommit, Estimates;
    if id in db.workflows {
      var w := db.workflows[id];
      MoveIsReady(Put(db, id, w.(status := Complete)), id, NoBuyComplete, Idle);
      MoveIsReady(Put(db, id, w.(phase := BuyPhase, legs := w.legs + PlannedLegs(specs))), id, BuyInstalled, BuyPending);
    }
  }

  lemma {:induction false} ControlsIsReady(w: World, cs: seq<Control>)
    ensures !NotReady(Controls(w, cs).outcome)
    decreases |cs|
  {
    if cs != [] && cs[0].key.ControlKey? && ControlTransition(w.db, cs[0]).Ok? {
      ControlsIsReady(w.(db := ControlTransition(w.db, cs[0]).value), cs[1..]);
    }
  }

  lemma PlanIsReady(w: World, o: Oracle)
    ensures !NotReady(PlanNewWork(w, o).outcome)
  {
    hide Controls, CreateWorkflow, StartWorkflow, ControlTarget;
    ControlsIsReady(w, o.prepare);
    var w1 := At(w, Controls(w, o.prepare).worlds);
    match o.plan
    case PlanNothing =>
    case PlanCommit(decision, rebalance) => ControlsIsReady(w1, ControlTarget(decision, rebalance, o.commit));
    case PlanOrders(plan, sells) =>
      CreateIsReady(w1.db, plan, sells);
      StartIsReady(At(w1, Commit(w1, CreateWorkflow(w1.db, plan, sells)).worlds).db, Id(plan));
  }

  /* ---- The chosen actions ---- */

  // The first planned buy is estimated at more than the cash and one cent.
  ghost predicate NextBuyTooDear(db: Db, id: nat) {
    && id in db.workflows
    && var legs := db.workflows[id].legs;
       exists i :: 0 <= i < |legs| && FirstPlanned(legs, i) && legs[i].spec.estimate.Some?
                   && legs[i].spec.estimate.value > db.machine.account.cash as real + 1.0
  }

  ghost predicate FirstPlanned(legs: seq<Leg>, i: nat)
    requires i < |legs|
  {
    legs[i].status.Planned? && forall j :: 0 <= j < i ==> !legs[j].status.Planned?
  }

  // Every planned leg being a buy, the first of them heads the list.
  lemma FirstOfPlanned(legs: seq<Leg>)
    requires SomeLeg(legs, Buy, Planned) && forall i :: 0 <= i < |legs| && legs[i].status.Planned? ==> legs[i].spec.side.Buy?
    ensures var planned := PlannedIndexes(legs, Buy);
            && planned != [] && planned[0] < |legs| && FirstPlanned(legs, planned[0])
            && forall i :: 0 <= i < |legs| && FirstPlanned(legs, i) ==> i == planned[0]
  {
    hide PlannedIndexes;
    PlannedIndexesAre(legs, Buy);
    var planned := PlannedIndexes(legs, Buy);
    var i :| 0 <= i < |legs| && legs[i].spec.side.Buy? && legs[i].status.Planned?;
    assert i in planned && planned[0] in planned;
    forall j | 0 <= j < |legs| && legs[j].status.Planned? ensures planned[0] <= j {
      assert j in planned;
      var m :| 0 <= m < |planned| && planned[m] == j;
    }
  }

  // A planned leg is a buy with an estimate once the workflow is buying.
  lemma PlannedBuys(db: Db, id: nat)
    requires Inv(db) && ActiveIn(db, id) && db.workflows[id].phase.BuyPhase?
    ensures var legs := db.workflows[id].legs;
            forall i :: 0 <= i < |legs| && legs[i].status.Planned? ==> legs[i].spec.side.Buy? && legs[i].spec.estimate.Some?
  {
    PlanIs(db, id);
    var legs := db.workflows[id].legs;
    forall i | 0 <= i < |legs| && legs[i].status.Planned? ensures legs[i].spec.side.Buy? && legs[i].spec.estimate.Some? {
      assert LegOk(legs[i]);
    }
  }

  // Everything the phase asks of a buy but the cash: it can go out exactly if its estimate fits.
  lemma BuyReady(db: Db, id: nat)
    requires Inv(db) && SafeToSubmit(db, id, Buy) && SomeLeg(db.workflows[id].legs, Buy, Planned)
    ensures var legs := db.workflows[id].legs;
            && LegsOf(legs, Buy) != [] && !AnyAmbiguous(LegsOf(legs, Buy))
            && (NotReady(BuyCandidates(db, legs)) <==> NextBuyTooDear(db, id))
  {
    hide Inv, LegsOf, PlannedIndexes, AnyAmbiguous, AnyInFlight, SomeStatus, FirstPlanned, SomeLeg;
    var legs := db.workflows[id].legs;
    PlannedBuys(db, id);
    FirstOfPlanned(legs);
    SomeOfSide(legs, Buy, Planned);
    AllSettled(legs);
  }

  lemma AllSettled(legs: seq<Leg>)
    requires forall i :: 0 <= i < |legs| ==> SettledOrPlanned(legs[i])
    ensures var buys := LegsOf(legs, Buy);
            && !SomeStatus(buys, LegUnknown) && !SomeStatus(buys, LegFailed) && !SomeStatus(buys, IntentRecorded)
            && !AnyInFlight(buys) && !AnyAmbiguous(buys)
  {
    hide LegsOf;
    var buys := LegsOf(legs, Buy);
    SideMembers(legs, Buy);
    forall k | 0 <= k < |buys| ensures SettledOrPlanned(buys[k]) {
      assert buys[k] in buys;
      var m :| 0 <= m < |legs| && legs[m] == buys[k];
    }
  }

  lemma SubmitSellReady(w: World, id: nat, o: Oracle)
    requires ActiveIn(w.db, id) && w.db.workflows[id].phase.SellPhase?
    requires !SomeUnanswered(w.db.workflows[id].legs, Sell) && SomeLeg(w.db.workflows[id].legs, Sell, Planned)
    ensures !NotReady(Submission(w, id, o).outcome)
  {
    hide LegsOf, AnyAmbiguous, PlannedIndexes, SubmitLegs, SomeUnanswered;
    var legs := w.db.workflows[id].legs;
    SideFacts(legs, Sell);
    SomeOfSide(legs, Sell, Planned);
    SubmitLegsIsReady(w, id, Sell, PlannedIndexes(legs, Sell), o.replies);
  }

  lemma SomeOfSide(legs: seq<Leg>, side: Side, status: LegStatus)
    requires SomeLeg(legs, side, status)
    ensures LegsOf(legs, side) != []
  {
    hide LegsOf;
    SideMembers(legs, side);
    var i :| 0 <= i < |legs| && legs[i].spec.side == side && legs[i].status == status;
    assert legs[i] in LegsOf(legs, side);
  }

  lemma SubmitBuyReady(w: World, id: nat, o: Oracle)
    requires Inv(w.db) && SafeToSubmit(w.db, id, Buy) && SomeLeg(w.db.workflows[id].legs, Buy, Planned)
    ensures NotReady(Submission(w, id, o).outcome) <==> NextBuyTooDear(w.db, id) && o.allowSubmit && o.guardPasses && o.pendingKnown
  {
    hide LegsOf, AnyAmbiguous, BuyCandidates, SubmitLegs, Inv, NextBuyTooDear;
    BuyReady(w.db, id);
    var candidates := BuyCandidates(w.db, w.db.workflows[id].legs);
    if candidates.Ok? {
      SubmitLegsIsReady(w, id, Buy, candidates.value, o.replies);
    }
  }

  lemma NonePlanned(legs: seq<Leg>, side: Side)
    ensures PlannedIndexes(legs, side) != [] ==> SomeLeg(legs, side, Planned)
  {
    PlannedIndexesAre(legs, side);
    if PlannedIndexes(legs, side) != [] {
      assert PlannedIndexes(legs, side)[0] in PlannedIndexes(legs, side);
    }
  }

  // A phase with something in flight, no intent unanswered and, when selling, nothing planned.
  lemma ReconcileReady(w: World, id: nat, reply: ReconcileReply)
    requires ActiveIn(w.db, id)
    requires var wf := w.db.workflows[id];
             || (wf.phase.SellPhase? && SomeInFlight(wf.legs, Sell) && !SomeLeg(wf.legs, Sell, Planned))
             || (wf.phase.BuyPhase? && SomeInFlight(wf.legs, Buy))
    ensures !NotReady(ReconcileCurrent(w, id, reply).outcome)
  {
    hide LegsOf, AnyAmbiguous, PlannedIndexes, SubmittedIndexes, ApplyReports, MarkSellReported, MarkBuyReported, ReportedStatuses, MissingOrderId, SharedOrderId;
    var wf := w.db.workflows[id];
    var side := if wf.phase.SellPhase? then Sell else Buy;
    var submitted := SubmittedIndexes(wf.legs, side);
    PlannedIndexesAre(wf.legs, side);
    SubmittedIndexesAre(wf.legs, side);
    var i :| 0 <= i < |wf.legs| && wf.legs[i].spec.side == side && wf.legs[i].status in {BrokerAccepted, LegPending, LegPartial};
    assert i in submitted;
    NonePlanned(wf.legs, side);
    ApplyReportsErrors(w, wf.plan.decision, wf.legs, side, submitted, reply);
    var w1 := At(w, ApplyReports(w, wf.plan.decision, wf.legs, side, submitted, reply).worlds);
    var statuses := ReportedStatuses(wf.legs, side, reply);
    MarkSellIsReady(w1, id, statuses, reply);
    MarkBuyReportedIsReady(w1, id, wf.legs, statuses, submitted[0], reply);
  }

  // What recovery chose, and that it left the store alone when it chose to act on a phase.
  ghost predicate Chosen(db: Db, d: Decision) {
    && (d.action.NoWorkflow? || (d.workflow.Some? && d.workflow.value in db.workflows && d.action == ActionFor(db.workflows[d.workflow.value])))
    && SoundDecision(db, d)
  }

  lemma ChosenFor(db: Db)
    requires Inv(db)
    ensures Classify(db, None).Ok?
    ensures var (next, d) := Classify(db, None).value;
            Chosen(next, d) || d.action.ManualReconciliation?
    ensures Inv(Classify(db, None).value.0)
  {
    hide Inv, Classify, SoundDecision, Readable, SomeLeg, SomeUnanswered, SomeInFlight;
    RecoveryIsTotal(db);
    ClassifyTable(db);
    var (next, d) := Classify(db, None).value;
    StoppingKeeps(db, next);
    if exists id :: IsOpen(db, id) {
      var id :| IsOpen(db, id);
      assert LeavesStore(db, next, id);
    }
  }

  lemma StoppingKeeps(db: Db, next: Db)
    requires Inv(db) && (next == db || exists id :: RequireReconciliation(db, id).Ok? && RequireReconciliation(db, id).value.0 == next)
    ensures Inv(next)
  {
    hide Inv, RequireReconciliation;
    if next != db {
      var id :| RequireReconciliation(db, id).Ok? && RequireReconciliation(db, id).value.0 == next;
      RequiredActive(db, id);
      RequiringKeeps(db, id);
    }
  }

  lemma RequiredActive(db: Db, id: nat)
    requires RequireReconciliation(db, id).Ok?
    ensures ActiveIn(db, id)
  {
    hide MoveAndCommit;
  }

  // In a selling workflow every leg is a sell.
  lemma SellsInFlight(db: Db, id: nat)
    requires Inv(db) && InFlightIn(db, id, Sell)
    ensures SomeInFlight(db.workflows[id].legs, Sell)
  {
    PlanIs(db, id);
    var legs := db.workflows[id].legs;
    var i :| 0 <= i < |legs| && InFlight(legs[i]);
    assert legs[i].spec.side.Sell?;
  }

  // The buy that recovery wants out is planned.
  lemma BuyIsPlanned(db: Db, id: nat)
    requires Inv(db) && SafeToSubmit(db, id, Buy)
    ensures SomeLeg(db.workflows[id].legs, Buy, Planned)
  {
    PlanIs(db, id);
    var legs := db.workflows[id].legs;
    var i :| 0 <= i < |legs| && legs[i].spec.side.Buy? && !legs[i].status.LegFilled?;
    assert SettledOrPlanned(legs[i]);
  }

  // Recovery answers in every state of a run, and what it chooses is never refused as not ready
  // for its phase, whatever the outside answers, except a buy estimated above the cash at hand.
  lemma ChosenIsReady(w: World, o: Oracle)
    requires Good(w)
    ensures Classify(w.db, None).Ok?
    ensures var (db, d) := Classify(w.db, None).value;
            NotReady(Act(w.(db := db), d, o).outcome) <==>
            && d.action.SubmitBuy? && d.workflow.Some? && NextBuyTooDear(db, d.workflow.value)
            && o.allowSubmit && o.guardPasses && o.pendingKnown
  {
    hide Inv, Classify, Submission, ReconcileCurrent, PlanNewWork, StartWorkflow, InstallBuys, NextBuyTooDear,
      SomeLeg, SomeUnanswered, SomeInFlight, SafeToSubmit, InFlightIn;
    ChosenFor(w.db);
    var (db, d) := Classify(w.db, None).value;
    var w1 := w.(db := db);
    match d.action
    case NoWorkflow => PlanIsReady(w1, o);
    case StartAction => StartIsReady(db, d.workflow.value);
    case SubmitSell => SubmitSellReady(w1, d.workflow.value, o);
    case SubmitBuy =>
      BuyIsPlanned(db, d.workflow.value);
      SubmitBuyReady(w1, d.workflow.value, o);
    case ReconcileSell =>
      SellsInFlight(db, d.workflow.value);
      ReconcileReady(w1, d.workflow.value, o.reconcile);
    case ReconcileBuy => ReconcileReady(w1, d.workflow.value, o.reconcile);
    case ReplanBuys =>
      if o.replan.Some? {
        InstallIsReady(db, d.workflow.value, o.replan.value);
      }
    case _ =>
  }
}
