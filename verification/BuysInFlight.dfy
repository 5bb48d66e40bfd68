// Which answers of the broker keep the buys of a run one at a time: exactly those that report
// every fill again.
module BuysInFlight {
  import opened Common
  import opened Capital
  import opened ExecutionTables
  import opened Executor
  import opened ExecutionSteps
  import opened ExecutionInvariant
  import opened ExecutionKeeps
  import opened ExecutionEffects
  import opened PostOrder
  import opened CycleSteps
  import opened CycleRuns
  import opened BuySequence

  /* ---- Transactions that write no broker status to a buying workflow ---- */

  lemma SameRecordsQuiet(db: Db, next: Db)
    requires next.workflows == db.workflows
    ensures Quiet(db, next)
  {
  }

  // The record keeps its legs, or it was not buying.
  lemma RecordQuiet(db: Db, next: Db, id: nat, record: Workflow)
    requires next.workflows == db.workflows[id := record]
    requires id in db.workflows && db.workflows[id].phase.BuyPhase? ==> record.legs == db.workflows[id].legs
    ensures Quiet(db, next)
  {
  }

  lemma MoveQuiet(db: Db, id: nat, record: Workflow, suffix: Suffix, to: ExecState)
    requires id in db.workflows && db.workflows[id].phase.BuyPhase? ==> record.legs == db.workflows[id].legs
    ensures var r := MoveAndCommit(Put(db, id, record), id, suffix, to); r.Ok? ==> Quiet(db, r.value)
  {
    hide MoveAndCommit, Quiet;
    if MoveAndCommit(Put(db, id, record), id, suffix, to).Ok? {
      MoveKeepsRecords(db, id, record, suffix, to);
      RecordQuiet(db, MoveAndCommit(Put(db, id, record), id, suffix, to).value, id, record);
    }
  }

  lemma CreateQuiet(db: Db, plan: Plan, specs: seq<LegSpec>)
    ensures var r := CreateWorkflow(db, plan, specs); r.Ok? ==> Quiet(db, r.value)
  {
    hide MoveAndCommit, Quiet;
    SameRecordsQuiet(db, db);
    if Id(plan) !in db.workflows {
      MoveQuiet(db, Id(plan), Workflow(plan, Active, NoPhase, PlannedLegs(specs)), Created, PlanCreated);
    }
  }

  lemma StartQuiet(db: Db, id: nat)
    ensures var r := StartWorkflow(db, id); r.Ok? ==> Quiet(db, r.value)
  {
    hide MoveAndCommit, Quiet;
    SameRecordsQuiet(db, db);
    if id in db.workflows {
      MoveQuiet(db, id, db.workflows[id].(phase := SellPhase), ExecutionTables.Start, SellPending);
      MoveQuiet(db, id, db.workflows[id].(phase := ReconcilePhase), ExecutionTables.Start, Reconciling);
    }
  }

  lemma RequireQuiet(db: Db, id: nat)
    ensures var r := RequireReconciliation(db, id); r.Ok? ==> Quiet(db, r.value.0)
  {
    hide MoveAndCommit, Quiet;
    SameRecordsQuiet(db, db);
    if id in db.workflows {
      MoveQuiet(db, id, db.workflows[id].(status := ReconciliationRequired), AmbiguousIntent, ReconRequired);
    }
  }

  lemma InstallQuiet(db: Db, id: nat, specs: seq<LegSpec>)
    ensures var r := InstallBuys(db, id, specs); r.Ok? ==> Quiet(db, r.value)
  {
    hide MoveAndCommit, Quiet;
    if InstallBuys(db, id, specs).Ok? {
      var w := db.workflows[id];
      MoveQuiet(db, id, w.(status := Complete), NoBuyComplete, Idle);
      MoveQuiet(db, id, w.(phase := BuyPhase, legs := w.legs + PlannedLegs(specs)), BuyInstalled, BuyPending);
    }
  }

  lemma MarkSellQuiet(db: Db, id: nat, statuses: map<nat, LegStatus>)
    ensures var r := MarkSell(db, id, statuses); r.Ok? ==> Quiet(db, r.value)
  {
    hide MoveAndCommit, Quiet, SellVerdict;
    if MarkSell(db, id, statuses).Ok? {
      var w, v := db.workflows[id], SellVerdict(statuses);
      MoveQuiet(db, id, Workflow(w.plan, v.status, v.phase, WithStatuses(w.legs, statuses)), SellReconcile(v.exec), v.exec);
    }
  }

  lemma IntentQuiet(db: Db, id: nat, i: nat)
    ensures var r := RecordIntent(db, id, i); r.Ok? ==> Quiet(db, r.value)
  {
  }

  lemma AcceptQuiet(db: Db, id: nat, i: nat, orderId: nat)
    ensures var r := RecordAcceptance(db, id, i, orderId); r.Ok? ==> Quiet(db, r.value)
  {
  }

  lemma ControlQuiet(db: Db, c: Control)
    requires c.key.ControlKey?
    ensures var r := ControlTransition(db, c); r.Ok? ==> Quiet(db, r.value)
  {
    hide FindRow, ValidMachine;
  }

  /* ---- Traces of them ---- */

  lemma QuietNone(w: World)
    ensures QuietTrace(w, [])
  {
  }

  lemma QuietThen(w: World, a: seq<World>, b: seq<World>)
    requires QuietTrace(w, a) && QuietTrace(At(w, a), b)
    ensures QuietTrace(w, a + b)
  {
    hide Quiet;
    var worlds := a + b;
    forall i | 0 <= i < |worlds| ensures Quiet(Before(w, worlds, i).db, worlds[i].db) {
      if i < |a| {
        assert Before(w, worlds, i) == Before(w, a, i) && Quiet(Before(w, a, i).db, a[i].db);
      } else {
        assert Before(w, worlds, i) == Before(At(w, a), b, i - |a|);
        assert Quiet(Before(At(w, a), b, i - |a|).db, b[i - |a|].db);
      }
    }
  }

  lemma QuietPrefix(w: World, worlds: seq<World>, stop: nat)
    requires stop <= |worlds| && QuietTrace(w, worlds)
    ensures QuietTrace(w, worlds[..stop])
  {
    hide Quiet;
    forall i | 0 <= i < stop ensures Quiet(Before(w, worlds[..stop], i).db, worlds[..stop][i].db) {
      assert Quiet(Before(w, worlds, i).db, worlds[i].db);
    }
  }

  lemma QuietStep(w: World, next: World)
    requires Quiet(w.db, next.db)
    ensures QuietTrace(w, [next])
  {
    hide Quiet;
  }

  lemma QuietCommit(w: World, r: Result<Db, ExecError>)
    requires r.Ok? ==> Quiet(w.db, r.value)
    ensures QuietTrace(w, Commit(w, r).worlds)
  {
    hide Quiet;
  }

  lemma {:induction false} ControlsQuiet(w: World, cs: seq<Control>)
    ensures QuietTrace(w, Controls(w, cs).worlds)
    decreases |cs|
  {
    hide QuietTrace, Quiet, ControlTransition;
    QuietNone(w);
    if cs != [] && cs[0].key.ControlKey? && ControlTransition(w.db, cs[0]).Ok? {
      var next := w.(db := ControlTransition(w.db, cs[0]).value);
      ControlQuiet(w.db, cs[0]);
      QuietStep(w, next);
      ControlsQuiet(next, cs[1..]);
      QuietThen(w, [next], Controls(next, cs[1..]).worlds);
    }
  }

  lemma PlanQuiet(w: World, o: Oracle)
    ensures QuietTrace(w, PlanNewWork(w, o).worlds)
  {
    hide QuietTrace, Quiet, Controls, CreateWorkflow, StartWorkflow;
    ControlsQuiet(w, o.prepare);
    var prepared := Controls(w, o.prepare);
    if prepared.outcome.Ok? {
      var w1 := At(w, prepared.worlds);
      match o.plan
      case PlanNothing =>
      case PlanCommit(decision, rebalance) =>
        ControlsQuiet(w1, ControlTarget(decision, rebalance, o.commit));
        QuietThen(w, prepared.worlds, Controls(w1, ControlTarget(decision, rebalance, o.commit)).worlds);
      case PlanOrders(plan, sells) =>
        CreateQuiet(w1.db, plan, sells);
        var created := Commit(w1, CreateWorkflow(w1.db, plan, sells));
        QuietCommit(w1, CreateWorkflow(w1.db, plan, sells));
        QuietThen(w, prepared.worlds, created.worlds);
        if created.outcome.Ok? {
          EndThen(w, prepared.worlds, created.worlds);
          var w2 := At(w1, created.worlds);
          StartQuiet(w2.db, Id(plan));
          QuietCommit(w2, StartWorkflow(w2.db, Id(plan)));
          QuietThen(w, prepared.worlds + created.worlds, Commit(w2, StartWorkflow(w2.db, Id(plan))).worlds);
        }
    }
  }

  lemma {:induction false} SubmitLegsQuiet(w: World, id: nat, side: Side, candidates: seq<nat>, replies: seq<PostReply>)
    ensures QuietTrace(w, SubmitLegs(w, id, side, candidates, replies).worlds)
    decreases |candidates|
  {
    hide QuietTrace, Quiet, RecordIntent, RecordAcceptance, RequireReconciliation;
    QuietNone(w);
    if candidates != [] && RecordIntent(w.db, id, candidates[0]).Ok? {
      var intended := RecordIntent(w.db, id, candidates[0]).value;
      var w1 := w.(db := intended);
      var w2 := w1.(posts := w.posts + [Post(id, candidates[0], side)]);
      IntentQuiet(w.db, id, candidates[0]);
      QuietStep(w, w1);
      SameRecordsQuiet(intended, intended);
      QuietStep(w1, w2);
      QuietThen(w, [w1], [w2]);
      assert [w1] + [w2] == [w1, w2];
      var reply := if replies == [] then Raised else replies[0];
      if reply.Accepted? {
        if RecordAcceptance(intended, id, candidates[0], reply.orderId).Ok? {
          var w3 := w2.(db := RecordAcceptance(intended, id, candidates[0], reply.orderId).value);
          AcceptQuiet(intended, id, candidates[0], reply.orderId);
          QuietStep(w2, w3);
          QuietThen(w, [w1, w2], [w3]);
          assert [w1, w2] + [w3] == [w1, w2, w3];
          SubmitLegsQuiet(w3, id, side, candidates[1..], replies[1..]);
          QuietThen(w, [w1, w2, w3], SubmitLegs(w3, id, side, candidates[1..], replies[1..]).worlds);
        }
      } else if RequireReconciliation(intended, id).Ok? {
        var w3 := w2.(db := RequireReconciliation(intended, id).value.0);
        RequireQuiet(intended, id);
        QuietStep(w2, w3);
        QuietThen(w, [w1, w2], [w3]);
        assert [w1, w2] + [w3] == [w1, w2, w3];
      }
    }
  }

  lemma SubmitQuiet(w: World, id: nat, pendingKnown: bool, replies: seq<PostReply>)
    ensures QuietTrace(w, SubmitCurrent(w, id, pendingKnown, replies).worlds)
  {
    hide QuietTrace, Quiet, RequireReconciliation, SubmitLegs, BuyCandidates;
    QuietNone(w);
    if id in w.db.workflows {
      var wf := w.db.workflows[id];
      var side := if wf.phase.SellPhase? then Sell else Buy;
      RequireQuiet(w.db, id);
      if RequireReconciliation(w.db, id).Ok? {
        QuietStep(w, w.(db := RequireReconciliation(w.db, id).value.0));
      }
      var candidates := if side.Sell? then Ok(PlannedIndexes(wf.legs, Sell)) else BuyCandidates(w.db, wf.legs);
      if candidates.Ok? {
        SubmitLegsQuiet(w, id, side, candidates.value, replies);
      }
    }
  }

  lemma {:induction false} EventsQuiet(w: World, events: seq<FillEvent>, decision: nat)
    ensures QuietTrace(w, ApplyEvents(w, events, decision).worlds)
    ensures At(w, ApplyEvents(w, events, decision).worlds).db.workflows == w.db.workflows
    decreases |events|
  {
    hide QuietTrace, Quiet, ApplyFill;
    QuietNone(w);
    if events != [] && ApplyFillEvent(w.db, events[0], decision).Ok? {
      var next := w.(db := ApplyFillEvent(w.db, events[0], decision).value);
      SameRecordsQuiet(w.db, next.db);
      QuietStep(w, next);
      EventsQuiet(next, events[1..], decision);
      QuietThen(w, [next], ApplyEvents(next, events[1..], decision).worlds);
      EndThen(w, [next], ApplyEvents(next, events[1..], decision).worlds);
    }
  }

  lemma {:induction false} ReportsQuiet(w: World, decision: nat, legs: seq<Leg>, side: Side, indexes: seq<nat>, reply: ReconcileReply)
    ensures var t := ApplyReports(w, decision, legs, side, indexes, reply);
            QuietTrace(w, t.worlds) && At(w, t.worlds).db.workflows == w.db.workflows
    decreases |indexes|
  {
    hide QuietTrace, Quiet, ApplyEvents, NormalizeOrderFills;
    QuietNone(w);
    if indexes != [] && indexes[0] < |legs| {
      var orderId := OrderId(legs[indexes[0]]);
      match ReportFor(reply, orderId).history
      case None => ReportsQuiet(w, decision, legs, side, indexes[1..], reply);
      case Some(history) =>
        var order := HistoricalOrder(orderId, history.side, history.fills);
        if history.side == Some(side) && NormalizeOrderFills(order).Ok? {
          var events := NormalizeOrderFills(order).value;
          EventsQuiet(w, events, decision);
          var head := ApplyEvents(w, events, decision);
          if head.outcome.Ok? {
            var next := At(w, head.worlds);
            ReportsQuiet(next, decision, legs, side, indexes[1..], reply);
            QuietThen(w, head.worlds, ApplyReports(next, decision, legs, side, indexes[1..], reply).worlds);
            EndThen(w, head.worlds, ApplyReports(next, decision, legs, side, indexes[1..], reply).worlds);
          }
        }
    }
  }

  lemma MarkSellReportedQuiet(w: World, id: nat, statuses: map<nat, LegStatus>, reply: ReconcileReply)
    ensures QuietTrace(w, MarkSellReported(w, id, statuses, reply).worlds)
  {
    hide QuietTrace, Quiet, MarkSell;
    QuietNone(w);
    MarkSellQuiet(w.db, id, statuses);
    QuietCommit(w, MarkSell(w.db, id, statuses));
  }

  // Reconciling anything but a buy phase writes no status to a buying workflow.
  lemma ReconcileQuiet(w: World, id: nat, reply: ReconcileReply)
    requires id in w.db.workflows ==> !w.db.workflows[id].phase.BuyPhase?
    ensures QuietTrace(w, ReconcileCurrent(w, id, reply).worlds)
  {
    hide QuietTrace, Quiet, ApplyReports, MarkSellReported, MarkBuyReported, ReportedStatuses, SharedOrderId, MissingOrderId;
    QuietNone(w);
    if id in w.db.workflows {
      var wf := w.db.workflows[id];
      var submitted := SubmittedIndexes(wf.legs, Sell);
      ReportsQuiet(w, wf.plan.decision, wf.legs, Sell, submitted, reply);
      var fills := ApplyReports(w, wf.plan.decision, wf.legs, Sell, submitted, reply);
      var statuses := ReportedStatuses(wf.legs, Sell, reply);
      MarkSellReportedQuiet(At(w, fills.worlds), id, statuses, reply);
      QuietThen(w, fills.worlds, MarkSellReported(At(w, fills.worlds), id, statuses, reply).worlds);
    }
  }

  lemma ActQuiet(w: World, d: Decision, o: Oracle)
    requires !d.action.ReconcileBuy?
    requires d.action.ReconcileSell? && d.workflow.Some? && d.workflow.value in w.db.workflows ==>
               !w.db.workflows[d.workflow.value].phase.BuyPhase?
    ensures QuietTrace(w, Act(w, d, o).worlds)
  {
    hide QuietTrace, Quiet, PlanNewWork, StartWorkflow, InstallBuys, SubmitCurrent, ReconcileCurrent;
    QuietNone(w);
    if d.action.NoWorkflow? {
      PlanQuiet(w, o);
    } else if d.workflow.Some? {
      var id := d.workflow.value;
      match d.action
      case StartAction =>
        StartQuiet(w.db, id);
        QuietCommit(w, StartWorkflow(w.db, id));
      case SubmitSell => SubmitQuiet(w, id, o.pendingKnown, o.replies);
      case SubmitBuy => SubmitQuiet(w, id, o.pendingKnown, o.replies);
      case ReconcileSell => ReconcileQuiet(w, id, o.reconcile);
      case ReplanBuys =>
        if o.replan.Some? {
          InstallQuiet(w.db, id, o.replan.value);
          QuietCommit(w, InstallBuys(w.db, id, o.replan.value));
        }
      case _ =>
    }
  }

  /* ---- The last commit of a BUY reconciliation ---- */

  // The statuses the broker's answer gives the buys, and whether it leaves the phase open.
  function BuyReports(legs: seq<Leg>, reply: ReconcileReply): map<nat, LegStatus> {
    ReportedStatuses(legs, Buy, reply)
  }

  // The answer keeps this shape: it reports every recorded fill again, or (for the weaker shape)
  // reports at most one submitted buy other than filled.
  ghost predicate Repeats(shape: Shape, legs: seq<Leg>, reply: ReconcileReply) {
    match shape
    case Ordered =>
      forall i :: 0 <= i < |legs| && legs[i].spec.side.Buy? && legs[i].status.LegFilled? ==> FilledAgain(legs[i], reply)
    case Single =>
      forall i, j :: 0 <= i < j < |legs| && Submitted(legs[i]) && Submitted(legs[j]) ==>
        FilledAgain(legs[i], reply) || FilledAgain(legs[j], reply)
  }

  predicate Submitted(leg: Leg) {
    leg.spec.side.Buy? && !leg.status.Planned?
  }

  predicate FilledAgain(leg: Leg, reply: ReconcileReply) {
    ReportFor(reply, OrderId(leg)).state.BrokerFilled?
  }

  // An order reported FAILED or UNKNOWN ends the phase whatever else is reported.
  ghost predicate AnswerKeeps(shape: Shape, legs: seq<Leg>, reply: ReconcileReply) {
    LegUnknown in BuyReports(legs, reply).Values || LegFailed in BuyReports(legs, reply).Values || Repeats(shape, legs, reply)
  }

  // Legs of a workflow whose buys are being reconciled.
  ghost predicate Buying(legs: seq<Leg>) {
    && (forall i :: 0 <= i < |legs| && legs[i].spec.side.Sell? ==> legs[i].status.LegFilled?)
    && (exists i :: 0 <= i < |legs| && InFlight(legs[i]))
  }

  lemma OrderedRepeats(legs: seq<Leg>, reply: ReconcileReply)
    requires Buying(legs) && OneAtATime(legs)
    ensures OneAtATime(WithStatuses(legs, BuyReports(legs, reply))) <==> Repeats(Ordered, legs, reply)
  {
    hide WithStatuses, BuyReports, FilledAgain;
    var next := WithStatuses(legs, BuyReports(legs, reply));
    Written(legs, reply);
    var f :| 0 <= f < |legs| && InFlight(legs[f]);
    assert !next[f].status.Planned?;
    if OneAtATime(next) {
      forall i | 0 <= i < |legs| && legs[i].spec.side.Buy? && legs[i].status.LegFilled? ensures FilledAgain(legs[i], reply) {
        assert !(f < i) && i < f;
        assert Submitted(legs[i]);
      }
    }
    if Repeats(Ordered, legs, reply) {
      forall i, j | 0 <= i < j < |next| && !next[i].status.LegFilled? ensures next[j].status.Planned? {
        assert !legs[i].status.LegFilled?;
        assert legs[j].status.Planned? && !Submitted(legs[j]);
      }
    }
  }

  // What is written: a buy that was submitted is filled iff reported so; the rest stays.
  lemma Written(legs: seq<Leg>, reply: ReconcileReply)
    ensures var next := WithStatuses(legs, BuyReports(legs, reply));
            && |next| == |legs|
            && forall i :: 0 <= i < |legs| ==>
                 if Submitted(legs[i])
                 then !next[i].status.Planned? && (next[i].status.LegFilled? <==> FilledAgain(legs[i], reply))
                 else next[i] == legs[i]
  {
    var statuses := BuyReports(legs, reply);
    var next := WithStatuses(legs, statuses);
    forall i | 0 <= i < |legs|
      ensures if Submitted(legs[i])
              then !next[i].status.Planned? && (next[i].status.LegFilled? <==> FilledAgain(legs[i], reply))
              else next[i] == legs[i]
    {
      if Submitted(legs[i]) {
        assert i in statuses && statuses[i] == StatusFor(ReportFor(reply, OrderId(legs[i])).state);
      }
    }
  }

  lemma SingleRepeats(legs: seq<Leg>, reply: ReconcileReply)
    requires Buying(legs)
    ensures OneOpen(WithStatuses(legs, BuyReports(legs, reply))) <==> Repeats(Single, legs, reply)
  {
    var next := WithStatuses(legs, BuyReports(legs, reply));
    Written(legs, reply);
    forall i | 0 <= i < |legs| ensures SettledOrPlanned(next[i]) <==> !Submitted(legs[i]) || FilledAgain(legs[i], reply) {
      if !Submitted(legs[i]) {
        assert legs[i].spec.side.Sell? || legs[i].status.Planned?;
      }
    }
  }

  lemma ShapeRepeats(shape: Shape, legs: seq<Leg>, reply: ReconcileReply)
    requires Buying(legs) && Holds(shape, legs)
    ensures Holds(shape, WithStatuses(legs, BuyReports(legs, reply))) <==> Repeats(shape, legs, reply)
  {
    hide Repeats, OneAtATime, OneOpen, BuyReports, WithStatuses;
    if shape.Ordered? {
      OrderedRepeats(legs, reply);
    } else {
      SingleRepeats(legs, reply);
    }
  }

  // Everything reported filled repeats every fill.
  lemma AllRepeat(shape: Shape, legs: seq<Leg>, reply: ReconcileReply)
    requires BuyReports(legs, reply).Values == {LegFilled}
    ensures Repeats(shape, legs, reply)
  {
    var statuses := BuyReports(legs, reply);
    forall i | 0 <= i < |legs| && Submitted(legs[i]) ensures FilledAgain(legs[i], reply) {
      assert i in statuses && statuses[i] in statuses.Values;
    }
  }

  // The marking commit: the record of the workflow is rewritten, with the reported statuses while
  // it stays ACTIVE, and it stays so unless an order failed, is unknown, or all are filled.
  lemma Marked(w: World, id: nat, first: nat, reply: ReconcileReply) returns (record: Workflow)
    requires id in w.db.workflows && Indexes(w.db.workflows[id].legs, Buy) != {}
    requires AnyInFlight(w.db.workflows[id].legs)
    ensures var legs := w.db.workflows[id].legs;
            var t := MarkBuyReported(w, id, legs, BuyReports(legs, reply), first, reply);
            && |t.worlds| <= 1
            && (t.outcome.Ok? ==> |t.worlds| == 1)
            && (|t.worlds| == 1 ==>
                  && t.worlds[0].db.workflows == w.db.workflows[id := record]
                  && (record.status.Active? ==>
                        && t.outcome.Ok? && record.phase.BuyPhase?
                        && record.legs == WithStatuses(legs, BuyReports(legs, reply))
                        && LegUnknown !in BuyReports(legs, reply).Values && LegFailed !in BuyReports(legs, reply).Values)
                  && (!record.status.Active? ==>
                        LegUnknown in BuyReports(legs, reply).Values || LegFailed in BuyReports(legs, reply).Values
                        || BuyReports(legs, reply).Values == {LegFilled}))
  {
    hide PersistBuyProgress, MarkBuy, BuyReports, Indexes, AnyInFlight, WithStatuses;
    var legs := w.db.workflows[id].legs;
    var statuses := BuyReports(legs, reply);
    var values := statuses.Values;
    var plan := w.db.workflows[id].plan;
    if LegUnknown in values {
      record := Progressed(w.db, id, statuses, ReconciliationRequired, BuyUnknown, ReconRequired);
    } else if LegFailed in values {
      record := Progressed(w.db, id, statuses, Failed, BuyFailed, ExecFailed);
    } else if LegPartial in values {
      record := Progressed(w.db, id, statuses, Active, BuyPartial, PartialFill);
    } else if values != {LegFilled} {
      record := Progressed(w.db, id, statuses, Active, BuyStillPending, BuyPending);
    } else if !CashOk(w.db.machine.account) {
      record := Progressed(w.db, id, statuses, ReconciliationRequired, BuyCashBreach, ReconRequired);
    } else if PlannedIndexes(legs, Buy) != [] {
      record := Progressed(w.db, id, statuses, Active, BuyLegFilled(first), BuyPending);
    } else {
      record := Completed(w.db, id);
    }
  }

  lemma Progressed(db: Db, id: nat, statuses: map<nat, LegStatus>, status: WorkflowStatus, suffix: Suffix, to: ExecState)
    returns (record: Workflow)
    requires id in db.workflows
    ensures record.status == status && record.phase.BuyPhase? && record.legs == WithStatuses(db.workflows[id].legs, statuses)
    ensures var r := PersistBuyProgress(db, id, statuses, status, suffix, to);
            r.Ok? ==> r.value.workflows == db.workflows[id := record]
  {
    hide MoveAndCommit;
    record := Workflow(db.workflows[id].plan, status, BuyPhase, WithStatuses(db.workflows[id].legs, statuses));
    if PersistBuyProgress(db, id, statuses, status, suffix, to).Ok? {
      MoveKeepsRecords(db, id, record, suffix, to);
    }
  }

  lemma Completed(db: Db, id: nat) returns (record: Workflow)
    requires id in db.workflows && Indexes(db.workflows[id].legs, Buy) != {}
    ensures !record.status.Active?
    ensures var r := MarkBuy(db, id, map i | i in Indexes(db.workflows[id].legs, Buy) :: LegFilled);
            r.Ok? ==> r.value.workflows == db.workflows[id := record]
  {
    hide MoveAndCommit, BuyVerdict, AllReconcilable, Indexes;
    var w := db.workflows[id];
    var statuses := AllFilled(w.legs);
    AllFilledVerdict(w.legs);
    var v := BuyVerdict(statuses);
    record := Workflow(w.plan, v.status, v.phase, WithStatuses(w.legs, statuses));
    if MarkBuy(db, id, statuses).Ok? {
      MoveKeepsRecords(db, id, record, BuyReconcile(v.exec), v.exec);
    }
  }

  // A BUY reconciliation: quiet fills, then at most one marking commit.
  lemma BuyReconciliation(w: World, id: nat, reply: ReconcileReply) returns (fills: seq<World>, mark: seq<World>, record: Workflow)
    requires InFlightIn(w.db, id, Buy)
    ensures var t := ReconcileCurrent(w, id, reply); var legs := w.db.workflows[id].legs;
            && t.worlds == fills + mark && QuietTrace(w, fills) && |mark| <= 1
            && (t.outcome.Ok? ==> |mark| == 1)
            && (|mark| == 1 ==>
                  && mark[0].db.workflows == w.db.workflows[id := record]
                  && (record.status.Active? ==>
                        && t.outcome.Ok? && record.phase.BuyPhase?
                        && record.legs == WithStatuses(legs, BuyReports(legs, reply))
                        && LegUnknown !in BuyReports(legs, reply).Values && LegFailed !in BuyReports(legs, reply).Values)
                  && (!record.status.Active? ==>
                        LegUnknown in BuyReports(legs, reply).Values || LegFailed in BuyReports(legs, reply).Values
                        || BuyReports(legs, reply).Values == {LegFilled}))
  {
    hide QuietTrace, ApplyReports, MarkBuyReported, BuyReports, WithStatuses, SharedOrderId, MissingOrderId;
    QuietNone(w);
    var wf := w.db.workflows[id];
    var submitted := SubmittedIndexes(wf.legs, Buy);
    fills, mark, record := [], [], wf;
    if !AnyAmbiguous(LegsOf(wf.legs, Buy)) && submitted != [] && !MissingOrderId(wf.legs, submitted) && reply.readable {
      ReportsQuiet(w, wf.plan.decision, wf.legs, Buy, submitted, reply);
      var applied := ApplyReports(w, wf.plan.decision, wf.legs, Buy, submitted, reply);
      fills := applied.worlds;
      if applied.outcome.Ok? && !SharedOrderId(wf.legs, submitted) {
        var w1 := At(w, fills);
        SomeBuy(wf.legs, submitted);
        record := Marked(w1, id, submitted[0], reply);
        assert BuyReports(wf.legs, reply) == ReportedStatuses(wf.legs, Buy, reply) by { SameReports(wf.legs, reply); }
        mark := MarkBuyReported(w1, id, wf.legs, ReportedStatuses(wf.legs, Buy, reply), submitted[0], reply).worlds;
      }
    }
  }

  lemma SameReports(legs: seq<Leg>, reply: ReconcileReply)
    ensures BuyReports(legs, reply) == ReportedStatuses(legs, Buy, reply)
  {
  }

  lemma SomeBuy(legs: seq<Leg>, submitted: seq<nat>)
    requires submitted == SubmittedIndexes(legs, Buy) && submitted != []
    ensures Indexes(legs, Buy) != {}
  {
    SubmittedIndexesAre(legs, Buy);
    assert submitted[0] in submitted;
    assert submitted[0] in Indexes(legs, Buy);
  }

  /* ---- One cycle ---- */

  // The workflow whose buys this cycle reconciles.
  function BuyReconciled(w: World): Option<nat> {
    if Awaiting(w.db) != {} then None
    else
      match Classify(w.db, None)
      case Err(_) => None
      case Ok((_, d)) => if d.action.ReconcileBuy? then d.workflow else None
  }

  // A step that reconciles buys, returns, and is not stopped before its end has an answer that keeps the shape.
  ghost predicate StepAnswers(shape: Shape, w: World, step: CycleStep) {
    var id := BuyReconciled(w);
    var t := Cycle(w, step.oracle);
    id.Some? && id.value in w.db.workflows && t.outcome.Ok? && step.stop >= |t.worlds| ==>
      AnswerKeeps(shape, w.db.workflows[id.value].legs, step.oracle.reconcile)
  }

  lemma SameStore(db: Db, next: Db, d: Decision)
    requires Classify(db, None) == Ok((next, d)) && d.action.ReconcileBuy?
    ensures next == db
  {
    hide RequireReconciliation, ClassifySell, ClassifyBuy;
  }

  lemma OtherCycleQuiet(w: World, o: Oracle)
    requires Good(w) && BuyReconciled(w).None?
    ensures QuietTrace(w, Cycle(w, o).worlds)
  {
    hide Inv, PostsOk, QuietTrace, Quiet, Classify, Act, Controls, AwaitsControl;
    QuietNone(w);
    OpenIsUnfinished(w.db);
    if |Awaiting(w.db)| == 1 {
      var plan := w.db.workflows[Only(Awaiting(w.db))].plan;
      ControlsQuiet(w, ControlTarget(plan.decision, plan.rebalance, o.finalize));
    } else {
      RecoveryIsTotal(w.db);
      var (db, d) := Classify(w.db, None).value;
      ClassifyQuiet(w.db, db);
      QuietStep(w, w.(db := db));
      assert Awaiting(w.db) == {};
      ActQuiet(w.(db := db), d, o);
      QuietThen(w, [w.(db := db)], Act(w.(db := db), d, o).worlds);
    }
  }

  lemma ClassifyQuiet(db: Db, next: Db)
    requires next == db || exists id :: RequireReconciliation(db, id).Ok? && RequireReconciliation(db, id).value.0 == next
    ensures Quiet(db, next)
  {
    hide RequireReconciliation, Quiet;
    SameRecordsQuiet(db, db);
    if next != db {
      var id :| RequireReconciliation(db, id).Ok? && RequireReconciliation(db, id).value.0 == next;
      RequireQuiet(db, id);
    }
  }

  lemma BuyCycle(w: World, o: Oracle) returns (id: nat, quiet: seq<World>, mark: seq<World>, record: Workflow)
    requires Good(w) && BuyReconciled(w).Some?
    ensures id == BuyReconciled(w).value && InFlightIn(w.db, id, Buy)
    ensures var t := Cycle(w, o); var legs := w.db.workflows[id].legs; var reports := BuyReports(legs, o.reconcile).Values;
            && t.worlds == quiet + mark && QuietTrace(w, quiet) && |mark| <= 1
            && (t.outcome.Ok? ==> |mark| == 1)
            && (|mark| == 1 ==>
                  && mark[0].db.workflows == w.db.workflows[id := record]
                  && (record.status.Active? ==>
                        && t.outcome.Ok? && record.phase.BuyPhase?
                        && record.legs == WithStatuses(legs, BuyReports(legs, o.reconcile))
                        && LegUnknown !in reports && LegFailed !in reports)
                  && (!record.status.Active? ==> LegUnknown in reports || LegFailed in reports || reports == {LegFilled}))
  {
    hide Inv, PostsOk, QuietTrace, Quiet, Classify, ReconcileCurrent, AwaitsControl, BuyReports, WithStatuses;
    RecoveryIsTotal(w.db);
    var (db, d) := Classify(w.db, None).value;
    SameStore(w.db, db, d);
    id := d.workflow.value;
    assert w.(db := db) == w;
    var fills: seq<World>;
    fills, mark, record := BuyReconciliation(w, id, o.reconcile);
    quiet := [w] + fills;
    SameRecordsQuiet(w.db, w.db);
    QuietStep(w, w);
    QuietThen(w, [w], fills);
    assert [w] + (fills + mark) == quiet + mark;
  }

  lemma BuyingNow(db: Db, id: nat)
    requires Inv(db) && InFlightIn(db, id, Buy)
    ensures Buying(db.workflows[id].legs)
  {
    assert Fits(db.workflows[id], db.machine.exec, db.machine.account);
  }

  lemma QuietStop(shape: Shape, w: World, o: Oracle, quiet: seq<World>, stop: nat)
    requires Good(w) && BuysHold(shape, w.db) && quiet <= Cycle(w, o).worlds && QuietTrace(w, quiet)
    requires stop <= |quiet|
    ensures BuysHold(shape, At(w, Cycle(w, o).worlds[..stop]).db)
  {
    hide Inv, PostsOk, QuietTrace, BuysHold, Cycle, Steps;
    CycleTakesSteps(w, o);
    var worlds := Cycle(w, o).worlds;
    StepsPrefix(w, worlds, stop);
    QuietPrefix(w, quiet, stop);
    assert worlds[..stop] == quiet[..stop];
    StepsHold(shape, w, worlds[..stop]);
  }

  // From buys in shape, a cycle stopped anywhere leaves them in shape exactly if the answer does.
  lemma CycleHolds(shape: Shape, w: World, step: CycleStep)
    requires Good(w) && BuysHold(shape, w.db)
    ensures BuysHold(shape, Stopped(w, Cycle(w, step.oracle), step.stop).db) <==> StepAnswers(shape, w, step)
  {
    hide Inv, PostsOk, QuietTrace, Cycle, BuysHold, AnswerKeeps, BuyReconciled, BuyReports, WithStatuses, InFlightIn;
    var o, worlds := step.oracle, Cycle(w, step.oracle).worlds;
    if BuyReconciled(w).None? {
      OtherCycleQuiet(w, o);
      QuietStop(shape, w, o, worlds, if step.stop <= |worlds| then step.stop else |worlds|);
      assert worlds[..|worlds|] == worlds;
    } else {
      var id, quiet, mark, record := BuyCycle(w, o);
      if step.stop < |worlds| || mark == [] {
        var stop := if step.stop <= |worlds| then step.stop else |worlds|;
        QuietStop(shape, w, o, quiet, stop);
        assert worlds[..|worlds|] == worlds;
      } else {
        assert worlds[..|worlds|] == worlds && At(w, worlds) == mark[0];
        MarkHolds(shape, w, id, mark[0].db, record, o.reconcile, Cycle(w, o).outcome.Ok?);
        assert InFlightIn(w.db, id, Buy) ==> id in w.db.workflows by { InStore(w.db, id); }
      }
    }
  }

  lemma InStore(db: Db, id: nat)
    ensures InFlightIn(db, id, Buy) ==> id in db.workflows
  {
  }

  lemma MarkHolds(shape: Shape, w: World, id: nat, next: Db, record: Workflow, reply: ReconcileReply, returned: bool)
    requires Good(w) && BuysHold(shape, w.db) && InFlightIn(w.db, id, Buy)
    requires next.workflows == w.db.workflows[id := record]
    requires var legs := w.db.workflows[id].legs; var reports := BuyReports(legs, reply).Values;
             && (record.status.Active? ==>
                   && returned && record.phase.BuyPhase?
                   && record.legs == WithStatuses(legs, BuyReports(legs, reply))
                   && LegUnknown !in reports && LegFailed !in reports)
             && (!record.status.Active? ==> LegUnknown in reports || LegFailed in reports || reports == {LegFilled})
    ensures BuysHold(shape, next) <==> (returned ==> AnswerKeeps(shape, w.db.workflows[id].legs, reply))
  {
    hide Inv, PostsOk, Holds, Repeats, BuyReports, WithStatuses;
    var legs := w.db.workflows[id].legs;
    BuyingNow(w.db, id);
    assert Holds(shape, legs);
    ShapeRepeats(shape, legs, reply);
    if BuyReports(legs, reply).Values == {LegFilled} {
      AllRepeat(shape, legs, reply);
    }
    assert ActiveIn(next, id) <==> record.status.Active?;
    if !record.status.Active? || Holds(shape, record.legs) {
      forall other | ActiveIn(next, other) && next.workflows[other].phase.BuyPhase?
        ensures Holds(shape, next.workflows[other].legs)
      {
        assert other != id ==> ActiveIn(w.db, other);
      }
    }
  }

  /* ---- Whole runs ---- */

  // The shape in every state between cycles, wherever each was stopped.
  ghost predicate AlwaysHold(shape: Shape, start: World, steps: seq<CycleStep>) {
    forall k :: 0 <= k <= |steps| ==> BuysHold(shape, RunCycles(start, steps[..k]).db)
  }

  ghost predicate AllAnswers(shape: Shape, start: World, steps: seq<CycleStep>) {
    forall k :: 0 <= k < |steps| ==> StepAnswers(shape, RunCycles(start, steps[..k]), steps[k])
  }

  lemma NextRun(start: World, steps: seq<CycleStep>, k: nat)
    requires k < |steps|
    ensures RunCycles(start, steps[..k + 1]) ==
            Stopped(RunCycles(start, steps[..k]), Cycle(RunCycles(start, steps[..k]), steps[k].oracle), steps[k].stop)
  {
    hide Cycle, Stopped;
    assert DropLast(steps[..k + 1]) == steps[..k];
  }

  lemma RunGood(start: World, steps: seq<CycleStep>, k: nat)
    requires FreshStart(start) && k <= |steps|
    ensures Good(RunCycles(start, steps[..k]))
  {
    hide Inv, PostsOk, Decided, Classify, RunCycles;
    EveryRun(start, steps[..k]);
  }

  lemma {:induction false} HoldsUpTo(shape: Shape, start: World, steps: seq<CycleStep>, k: nat)
    requires FreshStart(start) && AllAnswers(shape, start, steps) && k <= |steps|
    ensures BuysHold(shape, RunCycles(start, steps[..k]).db)
  {
    hide Inv, PostsOk, BuysHold, StepAnswers, RunCycles, Cycle, Stopped;
    if k == 0 {
      NothingBuys(shape, start);
      assert steps[..0] == [];
    } else {
      HoldsUpTo(shape, start, steps, k - 1);
      RunGood(start, steps, k - 1);
      NextRun(start, steps, k - 1);
      CycleHolds(shape, RunCycles(start, steps[..k - 1]), steps[k - 1]);
    }
  }

  lemma NothingBuys(shape: Shape, start: World)
    requires FreshStart(start)
    ensures BuysHold(shape, RunCycles(start, []).db)
  {
  }

  // The buys of a run stay one at a time, stopped anywhere and whatever else is answered, exactly if
  // every BUY reconciliation that returns reports each recorded fill again, unless it reports an
  // order FAILED or UNKNOWN; and never two are open exactly if no such answer leaves two unfilled.
  lemma OneBuyInFlight(shape: Shape, start: World, steps: seq<CycleStep>)
    requires FreshStart(start)
    ensures AlwaysHold(shape, start, steps) <==> AllAnswers(shape, start, steps)
  {
    hide Inv, PostsOk, BuysHold, StepAnswers, RunCycles, Cycle, Stopped;
    if AllAnswers(shape, start, steps) {
      forall k | 0 <= k <= |steps| ensures BuysHold(shape, RunCycles(start, steps[..k]).db) {
        HoldsUpTo(shape, start, steps, k);
      }
    }
    if AlwaysHold(shape, start, steps) {
      forall k | 0 <= k < |steps| ensures StepAnswers(shape, RunCycles(start, steps[..k]), steps[k]) {
        RunGood(start, steps, k);
        NextRun(start, steps, k);
        var after := k + 1;
        assert BuysHold(shape, RunCycles(start, steps[..after]).db);
        CycleHolds(shape, RunCycles(start, steps[..k]), steps[k]);
      }
    }
  }
}
