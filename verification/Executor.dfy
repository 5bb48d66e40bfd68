// One process driving a two-phase rebalance: classify_recovery of
// src/sp1execution/execution/recovery_v04.py, the executor of broker_executor_v04.py and
// run_cycle of cycle_v04.py.  The broker and everything else outside the database answer
// through an Oracle, without any restriction.  A Trace lists the worlds a call goes
// through, one per commit and one per POST; a crash stops it after any of them.
module Executor {
  import opened Common
  import opened Capital
  import opened ExecutionTables

  datatype Post = Post(workflow: nat, leg: nat, side: Side)

  datatype World = World(db: Db, posts: seq<Post>)

  datatype Trace<+T> = Trace(worlds: seq<World>, outcome: Result<T, ExecError>)

  function At(w: World, worlds: seq<World>): World {
    if worlds == [] then w else Last(worlds)
  }

  function Then<T>(worlds: seq<World>, rest: Trace<T>): Trace<T> {
    Trace(worlds + rest.worlds, rest.outcome)
  }

  // A transaction that commits once.
  function Commit(w: World, r: Result<Db, ExecError>): Trace<()> {
    match r
    case Err(e) => Trace([], Err(e))
    case Ok(db) => Trace([w.(db := db)], Ok(()))
  }

  /* ---- classify_recovery ---- */

  datatype Action =
    | NoWorkflow | StartAction | SubmitSell | SubmitBuy | ReconcileSell | ReconcileBuy
    | ReplanBuys | ManualReconciliation | FailedReview | AlreadyComplete

  datatype Decision = Decision(workflow: Option<nat>, action: Action)

  function NonComplete(db: Db): set<nat> {
    set id | id in db.workflows && !db.workflows[id].status.Complete?
  }

  lemma Single(s: set<nat>)
    requires |s| == 1
    ensures forall a, b :: a in s && b in s ==> a == b
  {
    var x :| x in s;
    assert |s - {x}| == 0;
    forall a | a in s ensures a == x {
      assert a !in s - {x};
    }
  }

  function Only(s: set<nat>): (x: nat)
    requires |s| == 1
    ensures x in s
  {
    Single(s);
    var x :| x in s;
    x
  }

  predicate InFlight(leg: Leg) {
    leg.status in {BrokerAccepted, LegPending, LegPartial}
  }

  // _assert_leg_shape, for the legs of the phase.
  predicate LegShapeOk(legs: seq<Leg>) {
    && legs != []
    && forall i :: 0 <= i < |legs| ==>
         && (legs[i].status in {BrokerAccepted, LegPending, LegPartial, LegFilled, LegFailed, LegUnknown} ==> legs[i].orderId.Some?)
         && (legs[i].status.Planned? ==> legs[i].orderId.None?)
  }

  predicate SomeStatus(legs: seq<Leg>, status: LegStatus) {
    exists i :: 0 <= i < |legs| && legs[i].status == status
  }

  predicate AnyInFlight(legs: seq<Leg>) {
    exists i :: 0 <= i < |legs| && InFlight(legs[i])
  }

  // The decision for an ACTIVE workflow that is selling or buying, before looking at cash.
  function ClassifySell(id: nat, legs: seq<Leg>, exec: ExecState): Result<Decision, ExecError> {
    if !exec.SellPending? && !exec.PartialFill? then Err(Invariant)
    else if SomeStatus(legs, Planned) then Ok(Decision(Some(id), SubmitSell))
    else if AnyInFlight(legs) then Ok(Decision(Some(id), ReconcileSell))
    else Err(Invariant)
  }

  function ClassifyBuy(id: nat, legs: seq<Leg>, exec: ExecState, a: Account): Result<Decision, ExecError> {
    if !exec.BuyPending? && !exec.PartialFill? then Err(Invariant)
    else if AnyInFlight(legs) then Ok(Decision(Some(id), ReconcileBuy))
    else if SomeStatus(legs, Planned) then
      if !CashOk(a) then Err(Invariant) else Ok(Decision(Some(id), SubmitBuy))
    else Err(Invariant)
  }

  // An ACTIVE workflow; the store it leaves differs only when an ambiguous intent is found.
  function ClassifyActive(db: Db, id: nat): Result<(Db, Decision), ExecError>
    requires id in db.workflows
  {
    var w, exec := db.workflows[id], db.machine.exec;
    match w.phase
    case NoPhase =>
      if !exec.PlanCreated? || LegsOf(w.legs, Buy) != [] then Err(Invariant)
      else Ok((db, Decision(Some(id), StartAction)))
    case ReconcilePhase =>
      if !exec.Reconciling? || LegsOf(w.legs, Buy) != []
         || exists i :: 0 <= i < |w.legs| && w.legs[i].spec.side.Sell? && !w.legs[i].status.LegFilled?
      then Err(Invariant)
      else Ok((db, Decision(Some(id), ReplanBuys)))
    case _ =>
      var legs := LegsOf(w.legs, if w.phase.SellPhase? then Sell else Buy);
      if !LegShapeOk(legs) then Err(Invariant)
      else if AnyAmbiguous(legs) then
        (match RequireReconciliation(db, id)
         case Err(e) => Err(e)
         case Ok((next, changed)) =>
           if changed then Ok((next, Decision(Some(id), ManualReconciliation))) else Err(Invariant))
      else if SomeStatus(legs, LegUnknown) || SomeStatus(legs, LegFailed) then Err(Invariant)
      else
        var decision :- if w.phase.SellPhase? then ClassifySell(id, legs, exec) else ClassifyBuy(id, legs, exec, db.machine.account);
        Ok((db, decision))
  }

  function ClassifyWorkflow(db: Db, id: nat): Result<(Db, Decision), ExecError>
    requires id in db.workflows
  {
    var w, exec := db.workflows[id], db.machine.exec;
    if w.status.Complete? then
      if !exec.Idle? then Err(Invariant) else Ok((db, Decision(Some(id), AlreadyComplete)))
    else if w.status.Failed? then
      if !exec.ExecFailed? then Err(Invariant) else Ok((db, Decision(Some(id), FailedReview)))
    else if w.status.ReconciliationRequired? || exec.ReconRequired? then
      if !(w.status.ReconciliationRequired? && exec.ReconRequired?) then Err(Invariant)
      else Ok((db, Decision(Some(id), ManualReconciliation)))
    else ClassifyActive(db, id)
  }

  // classify_recovery; the cycle asks without naming a workflow.
  function Classify(db: Db, named: Option<nat>): Result<(Db, Decision), ExecError> {
    var open := NonComplete(db);
    if |open| > 1 then Err(Invariant)
    else if open == {} && !db.machine.exec.Idle? then Err(Invariant)
    else if named.None? then
      if open == {} then Ok((db, Decision(None, NoWorkflow))) else ClassifyWorkflow(db, Only(open))
    else if open != {} && Only(open) != named.value then Err(Invariant)
    else if named.value !in db.workflows then Err(Invariant)
    else ClassifyWorkflow(db, named.value)
  }

  /* ---- submit_current_phase ---- */

  datatype PostReply = Raised | NoOrderId | Accepted(orderId: nat)

  function PlannedIndexes(legs: seq<Leg>, side: Side): seq<nat> {
    if legs == [] then []
    else
      PlannedIndexes(DropLast(legs), side) +
      if Last(legs).spec.side == side && Last(legs).status.Planned? then [|legs| - 1] else []
  }

  // Intent, POST, acceptance, leg by leg; anything short of an order id stops for good.
  function SubmitLegs(w: World, id: nat, side: Side, candidates: seq<nat>, replies: seq<PostReply>): Trace<seq<nat>>
    decreases |candidates|
  {
    if candidates == [] then Trace([], Ok([]))
    else
      match RecordIntent(w.db, id, candidates[0])
      case Err(e) => Trace([], Err(e))
      case Ok(intended) =>
        var w1 := w.(db := intended);
        var w2 := w1.(posts := w.posts + [Post(id, candidates[0], side)]);
        var reply := if replies == [] then Raised else replies[0];
        if reply.Accepted? then
          match RecordAcceptance(intended, id, candidates[0], reply.orderId)
          case Err(e) => Trace([w1, w2], Err(e))
          case Ok(accepted) =>
            var w3 := w2.(db := accepted);
            Then([w1, w2, w3], SubmitLegs(w3, id, side, candidates[1..], replies[1..]))
        else
          match RequireReconciliation(intended, id)
          case Err(e) => Trace([w1, w2], Err(e))
          case Ok((required, _)) =>
            Trace([w1, w2, w2.(db := required)], Err(if reply.Raised? then BrokerRaised else SubmissionAmbiguous))
  }

  // Whether the next buy may go out: none bad, none in flight, cash on hand.
  function BuyCandidates(db: Db, legs: seq<Leg>): Result<seq<nat>, ExecError> {
    var buys, a := LegsOf(legs, Buy), db.machine.account;
    if SomeStatus(buys, LegUnknown) || SomeStatus(buys, LegFailed) then Err(PhaseNotReady)
    else if SomeStatus(buys, IntentRecorded) || AnyInFlight(buys) then Err(PhaseNotReady)
    else
      var planned := PlannedIndexes(legs, Buy);
      if planned == [] then Err(PhaseNotReady)
      else if !CashOk(a) then Err(CashBoundary)
      else if planned[0] >= |legs| || legs[planned[0]].spec.estimate.None? then Err(InvalidLeg)
      else if legs[planned[0]].spec.estimate.value > a.cash as real + 1.0 then Err(PhaseNotReady)
      else Ok([planned[0]])
  }

  function SubmitCurrent(w: World, id: nat, pendingKnown: bool, replies: seq<PostReply>): Trace<seq<nat>> {
    if id !in w.db.workflows then Trace([], Err(UnknownWorkflow))
    else
      var wf := w.db.workflows[id];
      if !wf.status.Active? then Trace([], Err(PhaseNotReady))
      else if !wf.phase.SellPhase? && !wf.phase.BuyPhase? then Trace([], Err(PhaseNotReady))
      else
        var side := if wf.phase.SellPhase? then Sell else Buy;
        var legs := LegsOf(wf.legs, side);
        if legs == [] then Trace([], Err(PhaseNotReady))
        else if AnyAmbiguous(legs) then
          match RequireReconciliation(w.db, id)
          case Err(e) => Trace([], Err(e))
          case Ok((db, _)) => Trace([w.(db := db)], Err(SubmissionAmbiguous))
        else if !pendingKnown then Trace([], Err(BrokerRaised))
        else
          match (if side.Sell? then Ok(PlannedIndexes(wf.legs, Sell)) else BuyCandidates(w.db, wf.legs))
          case Err(e) => Trace([], Err(e))
          case Ok(candidates) => SubmitLegs(w, id, side, candidates, replies)
  }

  /* ---- reconcile_current_phase ---- */

  datatype BrokerState = BrokerPending | BrokerPartial | BrokerFilled | BrokerFailed | BrokerUnknown

  function StatusFor(s: BrokerState): LegStatus {
    match s
    case BrokerPending => LegPending
    case BrokerPartial => LegPartial
    case BrokerFilled => LegFilled
    case BrokerFailed => LegFailed
    case BrokerUnknown => LegUnknown
  }

  datatype OrderFills = OrderFills(side: Option<Side>, fills: seq<RawFill>)

  datatype Report = Report(state: BrokerState, history: Option<OrderFills>)

  // What the broker answers when the phase is reconciled; an id it does not know is UNKNOWN.
  datatype ReconcileReply = ReconcileReply(readable: bool, reports: map<nat, Report>, positionsMatch: bool)

  function ReportFor(reply: ReconcileReply, orderId: nat): Report {
    if orderId in reply.reports then reply.reports[orderId] else Report(BrokerUnknown, None)
  }

  function SubmittedIndexes(legs: seq<Leg>, side: Side): seq<nat> {
    if legs == [] then []
    else
      SubmittedIndexes(DropLast(legs), side) +
      if Last(legs).spec.side == side && !Last(legs).status.Planned? then [|legs| - 1] else []
  }

  // The fills of one order, one commit each.
  function ApplyEvents(w: World, events: seq<FillEvent>, decision: nat): Trace<()>
    decreases |events|
  {
    if events == [] then Trace([], Ok(()))
    else
      match ApplyFillEvent(w.db, events[0], decision)
      case Err(e) => Trace([], Err(e))
      case Ok(db) =>
        var next := w.(db := db);
        Then([next], ApplyEvents(next, events[1..], decision))
  }

  function OrderId(leg: Leg): nat {
    if leg.orderId.Some? then leg.orderId.value else 0
  }

  // The fills of every submitted leg, leg by leg.
  function ApplyReports(w: World, decision: nat, legs: seq<Leg>, side: Side, indexes: seq<nat>, reply: ReconcileReply): Trace<()>
    decreases |indexes|
  {
    if indexes == [] then Trace([], Ok(()))
    else if indexes[0] >= |legs| then Trace([], Err(UnknownLeg))
    else
      var orderId := OrderId(legs[indexes[0]]);
      match ReportFor(reply, orderId).history
      case None => ApplyReports(w, decision, legs, side, indexes[1..], reply)
      case Some(history) =>
        if history.side != Some(side) then Trace([], Err(SideMismatch))
        else
          match NormalizeOrderFills(HistoricalOrder(orderId, history.side, history.fills))
          case Err(e) => Trace([], Err(CapitalFailed(e)))
          case Ok(events) =>
            var head := ApplyEvents(w, events, decision);
            if head.outcome.Err? then head
            else Then(head.worlds, ApplyReports(At(w, head.worlds), decision, legs, side, indexes[1..], reply))
  }

  function ReportedStatuses(legs: seq<Leg>, side: Side, reply: ReconcileReply): map<nat, LegStatus> {
    map i: nat | 0 <= i < |legs| && legs[i].spec.side == side && !legs[i].status.Planned? ::
      StatusFor(ReportFor(reply, OrderId(legs[i])).state)
  }

  // Two submitted legs with one order id leave one of them without a report.
  predicate SharedOrderId(legs: seq<Leg>, indexes: seq<nat>) {
    exists i, j :: 0 <= i < j < |indexes| && indexes[i] < |legs| && indexes[j] < |legs|
                   && OrderId(legs[indexes[i]]) == OrderId(legs[indexes[j]])
  }

  predicate MissingOrderId(legs: seq<Leg>, indexes: seq<nat>) {
    exists k :: 0 <= k < |indexes| && indexes[k] < |legs| && legs[indexes[k]].orderId.None?
  }

  function MarkSellReported(w: World, id: nat, statuses: map<nat, LegStatus>, reply: ReconcileReply): Trace<()> {
    if statuses.Values == {LegFilled} && !reply.positionsMatch then Trace([], Err(PositionsDiffer))
    else Commit(w, MarkSell(w.db, id, statuses))
  }

  function MarkBuyReported(w: World, id: nat, legs: seq<Leg>, statuses: map<nat, LegStatus>, first: nat, reply: ReconcileReply):
    Trace<()>
  {
    var values := statuses.Values;
    if LegUnknown in values then
      Commit(w, PersistBuyProgress(w.db, id, statuses, ReconciliationRequired, BuyUnknown, ReconRequired))
    else if LegFailed in values then
      Commit(w, PersistBuyProgress(w.db, id, statuses, Failed, BuyFailed, ExecFailed))
    else if LegPartial in values then
      Commit(w, PersistBuyProgress(w.db, id, statuses, Active, BuyPartial, PartialFill))
    else if values != {LegFilled} then
      Commit(w, PersistBuyProgress(w.db, id, statuses, Active, BuyStillPending, BuyPending))
    else if !reply.positionsMatch then Trace([], Err(PositionsDiffer))
    else if !CashOk(w.db.machine.account) then
      var stopped := Commit(w, PersistBuyProgress(w.db, id, statuses, ReconciliationRequired, BuyCashBreach, ReconRequired));
      Trace(stopped.worlds, Err(if stopped.outcome.Err? then stopped.outcome.error else CashBoundary))
    else if PlannedIndexes(legs, Buy) != [] then
      Commit(w, PersistBuyProgress(w.db, id, statuses, Active, BuyLegFilled(first), BuyPending))
    else
      Commit(w, MarkBuy(w.db, id, map i | i in Indexes(legs, Buy) :: LegFilled))
  }

  function ReconcileCurrent(w: World, id: nat, reply: ReconcileReply): Trace<()> {
    if id !in w.db.workflows then Trace([], Err(UnknownWorkflow))
    else
      var wf := w.db.workflows[id];
      if !wf.status.Active? then Trace([], Err(PhaseNotReady))
      else if !wf.phase.SellPhase? && !wf.phase.BuyPhase? then Trace([], Err(PhaseNotReady))
      else
        var side := if wf.phase.SellPhase? then Sell else Buy;
        var submitted := SubmittedIndexes(wf.legs, side);
        if AnyAmbiguous(LegsOf(wf.legs, side)) then Trace([], Err(SubmissionAmbiguous))
        else if side.Sell? && PlannedIndexes(wf.legs, Sell) != [] then Trace([], Err(PhaseNotReady))
        else if submitted == [] then Trace([], Err(PhaseNotReady))
        else if MissingOrderId(wf.legs, submitted) then
          Trace([], Err(SubmissionAmbiguous))
        else if !reply.readable then Trace([], Err(BrokerRaised))
        else
          var fills := ApplyReports(w, wf.plan.decision, wf.legs, side, submitted, reply);
          if fills.outcome.Err? then fills
          else
            var w1 := At(w, fills.worlds);
            var statuses := ReportedStatuses(wf.legs, side, reply);
            if SharedOrderId(wf.legs, submitted) then Trace(fills.worlds, Err(NotCovered))
            else
              Then(fills.worlds,
                   if side.Sell? then MarkSellReported(w1, id, statuses, reply)
                   else MarkBuyReported(w1, id, wf.legs, statuses, submitted[0], reply))
  }

  /* ---- run_cycle ---- */

  // What planning new work comes to: nothing, a control commit, or a workflow to create.
  datatype PlanReply =
    | PlanNothing
    | PlanCommit(decision: nat, rebalance: bool)
    | PlanOrders(plan: Plan, sells: seq<LegSpec>)

  datatype Oracle = Oracle(
    finalize: seq<Control>, prepare: seq<Control>, plan: PlanReply, commit: seq<Control>,
    allowSubmit: bool, guardPasses: bool, pendingKnown: bool, replies: seq<PostReply>,
    reconcile: ReconcileReply, replan: Option<seq<LegSpec>>)

  function Controls(w: World, cs: seq<Control>): Trace<()>
    decreases |cs|
  {
    if cs == [] then Trace([], Ok(()))
    else if !cs[0].key.ControlKey? then Trace([], Err(ControlRefused))
    else
      match ControlTransition(w.db, cs[0])
      case Err(e) => Trace([], Err(e))
      case Ok(db) =>
        var next := w.(db := db);
        Then([next], Controls(next, cs[1..]))
  }

  // _apply_control_target: the strategy row, and the membership row of a rebalance.
  function ControlTarget(decision: nat, rebalance: bool, cs: seq<Control>): seq<Control> {
    var strategy := if |cs| > 0 then cs[0] else Control(ControlKey(decision, StrategyFinal), 0, false);
    var membership := if |cs| > 1 then cs[1] else Control(ControlKey(decision, MembershipFinal), 0, false);
    [strategy.(key := ControlKey(decision, StrategyFinal))] +
    if rebalance then [membership.(key := ControlKey(decision, MembershipFinal))] else []
  }

  // The workflow is complete, but its control rows are not all journaled.
  predicate AwaitsControl(db: Db, w: Workflow) {
    && w.status.Complete?
    && (|| FindRow(db.journal, ControlKey(w.plan.decision, StrategyFinal)).None?
        || (w.plan.rebalance && FindRow(db.journal, ControlKey(w.plan.decision, MembershipFinal)).None?))
  }

  function Awaiting(db: Db): set<nat> {
    set id | id in db.workflows && AwaitsControl(db, db.workflows[id])
  }

  function PlanNewWork(w: World, o: Oracle): Trace<()> {
    var prepared := Controls(w, o.prepare);
    if prepared.outcome.Err? then prepared
    else
      var w1 := At(w, prepared.worlds);
      match o.plan
      case PlanNothing => prepared
      case PlanCommit(decision, rebalance) =>
        Then(prepared.worlds, Controls(w1, ControlTarget(decision, rebalance, o.commit)))
      case PlanOrders(plan, sells) =>
        var created := Commit(w1, CreateWorkflow(w1.db, plan, sells));
        if created.outcome.Err? then Trace(prepared.worlds, created.outcome)
        else
          var w2 := At(w1, created.worlds);
          Then(prepared.worlds + created.worlds, Commit(w2, StartWorkflow(w2.db, Id(plan))))
  }

  // The part of the cycle after classification.
  function Act(w: World, d: Decision, o: Oracle): Trace<()> {
    if d.action.NoWorkflow? then PlanNewWork(w, o)
    else if d.workflow.None? then Trace([], Err(UnknownWorkflow))
    else
      var id := d.workflow.value;
      match d.action
      case StartAction => Commit(w, StartWorkflow(w.db, id))
      case SubmitSell => Submission(w, id, o)
      case SubmitBuy => Submission(w, id, o)
      case ReconcileSell => ReconcileCurrent(w, id, o.reconcile)
      case ReconcileBuy => ReconcileCurrent(w, id, o.reconcile)
      case ReplanBuys =>
        if o.replan.None? then Trace([], Err(ReplanFailed)) else Commit(w, InstallBuys(w.db, id, o.replan.value))
      case _ => Trace([], Ok(()))
  }

  function Submission(w: World, id: nat, o: Oracle): Trace<()> {
    if !o.allowSubmit then Trace([], Ok(()))
    else if !o.guardPasses then Trace([], Err(GuardRefused))
    else
      var submitted := SubmitCurrent(w, id, o.pendingKnown, o.replies);
      Trace(submitted.worlds, if submitted.outcome.Err? then Err(submitted.outcome.error) else Ok(()))
  }

  function Cycle(w: World, o: Oracle): Trace<()> {
    var awaiting := Awaiting(w.db);
    if |awaiting| > 1 then Trace([], Err(SeveralPending))
    else if |awaiting| == 1 then
      var plan := w.db.workflows[Only(awaiting)].plan;
      Controls(w, ControlTarget(plan.decision, plan.rebalance, o.finalize))
    else
      match Classify(w.db, None)
      case Err(e) => Trace([], Err(e))
      case Ok((db, decision)) =>
        var w1 := w.(db := db);
        Then([w1], Act(w1, decision, o))
  }

  /* ---- Runs ---- */

  // One cycle, stopped after `stop` commits and POSTs, or left to finish.
  datatype CycleStep = CycleStep(oracle: Oracle, stop: nat)

  function Stopped(w: World, t: Trace<()>, stop: nat): World {
    if stop <= |t.worlds| then At(w, t.worlds[..stop]) else At(w, t.worlds)
  }

  function RunCycles(start: World, steps: seq<CycleStep>): World {
    if steps == [] then start
    else
      var w := RunCycles(start, DropLast(steps));
      Stopped(w, Cycle(w, Last(steps).oracle), Last(steps).stop)
  }
}
