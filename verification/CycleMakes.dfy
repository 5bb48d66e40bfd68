// What one cycle of run_cycle in src/sp1execution/execution/cycle_v04.py makes of the world, action
// by action: what recovery chose is what is done, and nothing else.
module CycleMakes {
  import opened Common
  import opened Capital
  import opened ExecutionTables
  import opened Executor
  import opened ExecutionSteps
  import opened ExecutionInvariant
  import opened ExecutionKeeps
  import opened PostOrder
  import opened CycleSteps
  import opened CycleRuns
  import opened DecisionTable
  import opened Refusals
  import opened Booking
  import opened Reconciliation
  import opened Submissions

  /* ---- Creating, starting, installing ---- */

  ghost predicate ArePlanned(legs: seq<Leg>, specs: seq<LegSpec>) {
    |legs| == |specs| && forall i :: 0 <= i < |legs| ==> legs[i] == Leg(specs[i], Planned, None)
  }

  // The record of one workflow and the state of the machine are these; the money, the ledger and
  // the other workflows are as they were.
  ghost predicate Becomes(db: Db, next: Db, id: nat, w: Workflow, exec: ExecState) {
    && next.workflows == db.workflows[id := w] && next.ledger == db.ledger && next.machine.exec == exec
    && SameMoney(db.machine.account, next.machine.account)
  }

  // Legs of one side, each with a positive quantity and no negative estimate.
  ghost predicate Sound(specs: seq<LegSpec>, side: Side) {
    forall i :: 0 <= i < |specs| ==>
      specs[i].side == side && specs[i].quantity > 0.0 && (specs[i].estimate.Some? ==> specs[i].estimate.value >= 0.0)
  }

  lemma MovedBecomes(db: Db, id: nat, w: Workflow, suffix: Suffix, to: ExecState)
    requires db.machine.exec != to
    ensures Becomes(db, MovedTo(Put(db, id, w), id, suffix, to), id, w, to)
  {
  }

  // A workflow that has not started sells what it has to sell, or goes on to the buys.
  lemma StartMakes(db: Db, id: nat)
    requires Inv(db) && ActiveIn(db, id) && db.workflows[id].phase.NoPhase?
    ensures var w, r := db.workflows[id], StartWorkflow(db, id);
            r.Ok? && if w.legs == [] then Becomes(db, r.value, id, w.(phase := ReconcilePhase), Reconciling)
                     else Becomes(db, r.value, id, w.(phase := SellPhase), SellPending)
  {
    hide Inv, RowOk, LegsOk, MoveAndCommit, Becomes, MovedTo, LegsOf;
    var w := db.workflows[id];
    PlanIs(db, id);
    StartLegs(w, db.machine.exec, db.machine.account);
    if w.legs != [] {
      Advances(db, id, w.(phase := SellPhase), ExecutionTables.Start, SellPending);
      MovedBecomes(db, id, w.(phase := SellPhase), ExecutionTables.Start, SellPending);
    } else {
      Advances(db, id, w.(phase := ReconcilePhase), ExecutionTables.Start, Reconciling);
      MovedBecomes(db, id, w.(phase := ReconcilePhase), ExecutionTables.Start, Reconciling);
    }
  }

  lemma StartLegs(w: Workflow, exec: ExecState, a: Account)
    requires w.status.Active? && w.phase.NoPhase? && Fits(w, exec, a)
    ensures exec.PlanCreated? && (LegsOf(w.legs, Sell) != [] <==> w.legs != [])
    ensures Fits(w.(phase := SellPhase), SellPending, a) || w.legs == []
    ensures w.legs == [] ==> Fits(w.(phase := ReconcilePhase), Reconciling, a)
  {
    if w.legs != [] {
      LegsOfMember(w.legs, Sell, w.legs[0]);
    }
  }

  // With nothing open and nothing awaited, a sound plan under a new id is created and started.
  lemma CreateMakes(db: Db, plan: Plan, specs: seq<LegSpec>)
    requires Inv(db) && NonComplete(db) == {} && Awaiting(db) == {}
    ensures var r := CreateWorkflow(db, plan, specs);
            && (Sound(specs, Sell) && Id(plan) !in db.workflows ==>
                  && r.Ok? && Becomes(db, r.value, Id(plan), Workflow(plan, Active, NoPhase, PlannedLegs(specs)), PlanCreated)
                  && Inv(r.value))
            && (!(Sound(specs, Sell) && Id(plan) !in db.workflows) ==> r.Err? || r.value == db)
  {
    hide Inv, AwaitsControl, RowOk, LegsOf, MoveAndCommit, Becomes, MovedTo, ValidLegs, Sound, PlannedLegs, NonComplete, Awaiting;
    SoundIs(specs, Sell);
    if Sound(specs, Sell) && Id(plan) !in db.workflows {
      var w := Workflow(plan, Active, NoPhase, PlannedLegs(specs));
      OpenIsUnfinished(db);
      NothingActive(db);
      CreationMoves(db, plan, w);
      MovedBecomes(db, Id(plan), w, Created, PlanCreated);
      CreatingKeeps(db, plan, specs);
    }
  }

  lemma SoundIs(specs: seq<LegSpec>, side: Side)
    ensures ValidLegs(specs, side) <==> Sound(specs, side)
  {
    if ValidLegs(specs, side) {
      forall i | 0 <= i < |specs|
        ensures specs[i].side == side && specs[i].quantity > 0.0 && (specs[i].estimate.Some? ==> specs[i].estimate.value >= 0.0)
      {
        assert ValidLeg(specs[i], side);
      }
    }
  }

  lemma NothingActive(db: Db)
    requires NonComplete(db) == {}
    ensures ActiveIds(db) == {}
  {
    assert ActiveIds(db) <= NonComplete(db);
  }

  lemma CreationMoves(db: Db, plan: Plan, w: Workflow)
    requires Inv(db) && Id(plan) !in db.workflows && db.machine.exec.Idle?
    ensures MoveAndCommit(Put(db, Id(plan), w), Id(plan), Created, PlanCreated) ==
            Ok(MovedTo(Put(db, Id(plan), w), Id(plan), Created, PlanCreated))
  {
    hide WorkflowsOk, Alone, RowOk;
    NewKeyFresh(db, Id(plan), Created);
    MoveFresh(Put(db, Id(plan), w), Id(plan), Created, PlanCreated);
  }

  // What a replan can install: sound buys with estimates, within the cash and one cent.
  ghost predicate Installable(db: Db, specs: seq<LegSpec>) {
    && Sound(specs, Buy) && (forall i :: 0 <= i < |specs| ==> specs[i].estimate.Some?)
    && (specs != [] ==> CashOk(db.machine.account) && Estimates(specs) <= db.machine.account.cash as real + 1.0)
  }

  // The buys are installed exactly if they can be; without any the workflow is complete.
  lemma InstallMakes(db: Db, id: nat, specs: seq<LegSpec>)
    requires Inv(db) && ActiveIn(db, id) && db.workflows[id].phase.ReconcilePhase?
    ensures var w, r := db.workflows[id], InstallBuys(db, id, specs);
            && (r.Ok? <==> Installable(db, specs))
            && (r.Ok? ==>
                  if specs == [] then Becomes(db, r.value, id, w.(status := Complete), Idle)
                  else Becomes(db, r.value, id, w.(phase := BuyPhase, legs := w.legs + PlannedLegs(specs)), BuyPending))
  {
    hide Inv, RowOk, LegsOk, MoveAndCommit, Becomes, MovedTo, ValidLegs, Sound, PlannedLegs, Indexes, Estimates, CashOk;
    var w := db.workflows[id];
    PlanIs(db, id);
    SoundIs(specs, Buy);
    NoBuysYet(w, db.machine.exec, db.machine.account);
    if Installable(db, specs) {
      if specs == [] {
        Advances(db, id, w.(status := Complete), NoBuyComplete, Idle);
        MovedBecomes(db, id, w.(status := Complete), NoBuyComplete, Idle);
      } else {
        var next := w.(phase := BuyPhase, legs := w.legs + PlannedLegs(specs));
        InstallFits(w, specs, db.machine.exec, db.machine.account);
        Advances(db, id, next, BuyInstalled, BuyPending);
        MovedBecomes(db, id, next, BuyInstalled, BuyPending);
      }
    }
  }

  lemma NoBuysYet(w: Workflow, exec: ExecState, a: Account)
    requires w.status.Active? && w.phase.ReconcilePhase? && Fits(w, exec, a)
    ensures exec.Reconciling? && Indexes(w.legs, Buy) == {}
    ensures forall i :: 0 <= i < |w.legs| ==> w.legs[i].status.LegFilled?
  {
  }

  lemma PlannedLegsAre(specs: seq<LegSpec>)
    ensures ArePlanned(PlannedLegs(specs), specs)
  {
  }

  /* ---- Control rows ---- */

  // A control row is passed over if it is journaled with this content, and else written if allowed.
  ghost predicate Passes(journal: seq<Row>, c: Control) {
    match FindRow(journal, c.key)
    case Some(row) => row.ControlRow? && row.content == c.content
    case None => c.allowed
  }

  ghost predicate Journaled(journal: seq<Row>, c: Control) {
    var found := FindRow(journal, c.key);
    found.Some? && found.value.ControlRow? && found.value.content == c.content
  }

  // An idle store without an ACTIVE workflow, cash and debt tied.
  ghost predicate Resting(db: Db) {
    db.machine.exec.Idle? && ActiveIds(db) == {} && db.machine.account.debt == Debt(db.machine.account.cash)
  }

  ghost predicate OnlyJournal(db: Db, next: Db) {
    && next.workflows == db.workflows && next.ledger == db.ledger && next.machine.exec == db.machine.exec
    && SameMoney(db.machine.account, next.machine.account)
  }

  lemma ControlMakes(db: Db, c: Control)
    requires Resting(db) && c.key.ControlKey?
    ensures var r := ControlTransition(db, c);
            && (r.Ok? <==> Passes(db.journal, c))
            && (r.Ok? ==>
                  && Resting(r.value) && OnlyJournal(db, r.value) && Journaled(r.value.journal, c)
                  && forall key :: key != c.key ==> FindRow(r.value.journal, key) == FindRow(db.journal, key))
  {
    if ControlTransition(db, c).Ok? && FindRow(db.journal, c.key).None? {
      var next := ControlTransition(db, c).value;
      assert ActiveIds(next) == ActiveIds(db);
      assert DropLast(next.journal) == db.journal;
    }
  }

  // The control rows of a finished workflow, as the cycle is given them.
  ghost predicate Finalizes(journal: seq<Row>, plan: Plan, cs: seq<Control>) {
    && (|cs| == 0 ==> Passes(journal, Control(ControlKey(plan.decision, StrategyFinal), 0, false)))
    && (|cs| > 0 ==> Passes(journal, cs[0].(key := ControlKey(plan.decision, StrategyFinal))))
    && (plan.rebalance && |cs| <= 1 ==> Passes(journal, Control(ControlKey(plan.decision, MembershipFinal), 0, false)))
    && (plan.rebalance && |cs| > 1 ==> Passes(journal, cs[1].(key := ControlKey(plan.decision, MembershipFinal))))
  }

  // A cycle that finds a complete workflow without its control rows writes them, or raises.
  lemma FinalizeMakes(w: World, plan: Plan, cs: seq<Control>)
    requires Resting(w.db)
    ensures var t := Controls(w, ControlTarget(plan.decision, plan.rebalance, cs)); var next := At(w, t.worlds);
            && (t.outcome.Ok? <==> Finalizes(w.db.journal, plan, cs))
            && OnlyJournal(w.db, next.db) && next.posts == w.posts
            && (t.outcome.Ok? ==>
                  && FindRow(next.db.journal, ControlKey(plan.decision, StrategyFinal)).Some?
                  && (plan.rebalance ==> FindRow(next.db.journal, ControlKey(plan.decision, MembershipFinal)).Some?))
  {
    hide ControlTransition, Passes, Journaled, Resting, FindRow;
    var target := ControlTarget(plan.decision, plan.rebalance, cs);
    ControlMakes(w.db, target[0]);
    if ControlTransition(w.db, target[0]).Ok? {
      var w1 := w.(db := ControlTransition(w.db, target[0]).value);
      JournaledSome(w1.db.journal, target[0]);
      if plan.rebalance {
        var rest := target[1..];
        assert rest == [target[1]];
        ControlMakes(w1.db, target[1]);
        PassesSame(w.db.journal, w1.db.journal, target[1]);
        OneControl(w1, target[1]);
        if ControlTransition(w1.db, target[1]).Ok? {
          JournaledSome(ControlTransition(w1.db, target[1]).value.journal, target[1]);
        }
        EndThen(w, [w1], Controls(w1, rest).worlds);
      } else {
        assert target[1..] == [];
        NoControls(w1);
      }
    }
  }

  lemma JournaledSome(journal: seq<Row>, c: Control)
    requires Journaled(journal, c)
    ensures FindRow(journal, c.key).Some?
  {
  }

  lemma PassesSame(a: seq<Row>, b: seq<Row>, c: Control)
    requires FindRow(a, c.key) == FindRow(b, c.key)
    ensures Passes(a, c) <==> Passes(b, c)
  {
  }

  lemma NoControls(w: World)
    ensures Controls(w, []) == Trace([], Ok(()))
  {
  }

  lemma OneControl(w: World, c: Control)
    requires c.key.ControlKey?
    ensures var r := ControlTransition(w.db, c);
            Controls(w, [c]) == if r.Err? then Trace([], Err(r.error)) else Trace([w.(db := r.value)], Ok(()))
  {
    hide ControlTransition;
    if ControlTransition(w.db, c).Ok? {
      var next := w.(db := ControlTransition(w.db, c).value);
      assert [c][1..] == [];
      NoControls(next);
      assert [next] + [] == [next];
    }
  }

  /* ---- The action chosen ---- */

  // Orders go out if they are allowed to, the guard passes, the pending orders are known, and the
  // next buy is within the cash; else nothing changes.
  ghost predicate Submits(w: World, id: nat, side: Side, o: Oracle, next: World, outcome: Result<(), ExecError>)
    requires id in w.db.workflows
  {
    if !o.allowSubmit then next == w && outcome.Ok?
    else if !o.guardPasses then next == w && outcome == Err(GuardRefused)
    else if !o.pendingKnown then next == w && outcome == Err(BrokerRaised)
    else if side.Buy? && NextBuyTooDear(w.db, id) then next == w && outcome == Err(PhaseNotReady)
    else
      exists queue, k :: QueueSent(w, id, side, o.replies, queue, k, next, outcome)
  }

  ghost predicate QueueSent(
    w: World, id: nat, side: Side, replies: seq<PostReply>, queue: seq<nat>, k: nat, next: World, outcome: Result<(), ExecError>)
    requires id in w.db.workflows
  {
    && Queue(w.db.workflows[id].legs, side, queue) && queue != [] && Sent(w, id, side, queue, replies, k, next)
    && if k >= |queue| then outcome.Ok?
       else outcome == Err(if k >= |replies| || replies[k].Raised? then BrokerRaised else SubmissionAmbiguous)
  }

  // The phase is reconciled exactly if the broker's answer allows it, and then as it says.
  ghost predicate ReconcilesAs(w: World, id: nat, side: Side, reply: ReconcileReply, next: World, outcome: Result<(), ExecError>)
    requires id in w.db.workflows
  {
    var wf := w.db.workflows[id];
    && (outcome.Ok? || outcome == Err(CashBoundary) <==>
          && reply.readable && RecordsUsable(reply, wf.legs, side)
          && NoConflict(w.db.ledger, reply, wf.legs, side, wf.plan.decision) && OwnOrders(wf.legs, side)
          && (AllReportedFilled(reply, wf.legs, side) ==> reply.positionsMatch))
    && (outcome.Ok? || outcome == Err(CashBoundary) ==>
          && Reconciled(w, id, side, reply, next)
          && (outcome.Err? <==> side.Buy? && Overdrawn(next.db.workflows[id].legs, next.db.machine.account)))
  }

  // New work: the control rows of the preparation, and then what the plan calls for.
  ghost predicate Plans(w: World, o: Oracle, next: World, outcome: Result<(), ExecError>) {
    var prepared := Controls(w, o.prepare); var w1 := At(w, prepared.worlds);
    if prepared.outcome.Err? then next == w1 && outcome == prepared.outcome
    else
      match o.plan
      case PlanNothing => next == w1 && outcome.Ok?
      case PlanCommit(decision, rebalance) =>
        && (outcome.Ok? <==> Finalizes(w1.db.journal, Plan(decision, rebalance, 0), o.commit))
        && OnlyJournal(w1.db, next.db) && next.posts == w1.posts
      case PlanOrders(plan, sells) =>
        && next.posts == w1.posts
        && if Sound(sells, Sell) && Id(plan) !in w1.db.workflows then
             && outcome.Ok?
             && Becomes(w1.db, next.db, Id(plan),
                        Workflow(plan, Active, if sells == [] then ReconcilePhase else SellPhase, PlannedLegs(sells)),
                        if sells == [] then Reconciling else SellPending)
           else outcome.Err? && next.db == w1.db
  }

  ghost predicate Installs(w: World, id: nat, replan: Option<seq<LegSpec>>, next: World, outcome: Result<(), ExecError>)
    requires id in w.db.workflows
  {
    if replan.None? then next == w && outcome == Err(ReplanFailed)
    else
      && (outcome.Ok? <==> Installable(w.db, replan.value)) && next.posts == w.posts
      && if outcome.Err? then next == w
         else if replan.value == [] then Becomes(w.db, next.db, id, w.db.workflows[id].(status := Complete), Idle)
         else Becomes(w.db, next.db, id,
                      w.db.workflows[id].(phase := BuyPhase, legs := w.db.workflows[id].legs + PlannedLegs(replan.value)), BuyPending)
  }

  ghost predicate Starts(w: World, id: nat, next: World, outcome: Result<(), ExecError>)
    requires id in w.db.workflows
  {
    var wf := w.db.workflows[id];
    && outcome.Ok? && next.posts == w.posts
    && if wf.legs == [] then Becomes(w.db, next.db, id, wf.(phase := ReconcilePhase), ExecutionTables.Reconciling)
       else Becomes(w.db, next.db, id, wf.(phase := SellPhase), SellPending)
  }

  // What the chosen action does.
  ghost predicate Does(w: World, d: Decision, o: Oracle, next: World, outcome: Result<(), ExecError>) {
    if d.action.NoWorkflow? then Plans(w, o, next, outcome)
    else
      && d.workflow.Some? && d.workflow.value in w.db.workflows
      && var id := d.workflow.value;
         match d.action
         case StartAction => Starts(w, id, next, outcome)
         case SubmitSell => Submits(w, id, Sell, o, next, outcome)
         case SubmitBuy => Submits(w, id, Buy, o, next, outcome)
         case ReconcileSell => ReconcilesAs(w, id, Sell, o.reconcile, next, outcome)
         case ReconcileBuy => ReconcilesAs(w, id, Buy, o.reconcile, next, outcome)
         case ReplanBuys => Installs(w, id, o.replan, next, outcome)
         case _ => next == w && outcome.Ok?
  }

  lemma SubmitDoes(w: World, id: nat, side: Side, o: Oracle)
    requires Good(w) && SafeToSubmit(w.db, id, side) && SomeLeg(w.db.workflows[id].legs, side, Planned)
    ensures var t := Submission(w, id, o); Submits(w, id, side, o, At(w, t.worlds), t.outcome)
  {
    hide Good, SubmitCurrent, NextBuyTooDear, Sent, Queue, SomeLeg;
    if o.allowSubmit && o.guardPasses {
      if side.Buy? && NextBuyTooDear(w.db, id) {
        if o.pendingKnown {
          TooDearStays(w, id, o.replies);
        } else {
          UnknownPending(w, id, side, o.replies);
        }
      } else {
        var queue, k := SubmitMakes(w, id, side, o.replies);
        if o.pendingKnown {
          var t := SubmitCurrent(w, id, true, o.replies);
          assert QueueSent(w, id, side, o.replies, queue, k, At(w, t.worlds), Submission(w, id, o).outcome);
        }
      }
    }
  }

  lemma TooDearStays(w: World, id: nat, replies: seq<PostReply>)
    requires Good(w) && SafeToSubmit(w.db, id, Buy) && SomeLeg(w.db.workflows[id].legs, Buy, Planned) && NextBuyTooDear(w.db, id)
    ensures SubmitCurrent(w, id, true, replies) == Trace([], Err(PhaseNotReady))
  {
    hide Inv, PostsOk, LegsOf, AnyAmbiguous, BuyCandidates, SubmitLegs, NextBuyTooDear, SomeLeg;
    BuyReady(w.db, id);
  }

  lemma UnknownPending(w: World, id: nat, side: Side, replies: seq<PostReply>)
    requires Good(w) && SafeToSubmit(w.db, id, side) && SomeLeg(w.db.workflows[id].legs, side, Planned)
    ensures SubmitCurrent(w, id, false, replies) == Trace([], Err(BrokerRaised))
  {
    hide Inv, PostsOk, LegsOf, AnyAmbiguous, BuyCandidates, SubmitLegs, SomeLeg;
    SomeOfSide(w.db.workflows[id].legs, side, Planned);
    NoneUnanswered(w.db.workflows[id].legs, side);
  }

  lemma ReconcileDoes(w: World, id: nat, reply: ReconcileReply)
    requires Good(w) && DistinctFills(w.db.ledger) && ActiveIn(w.db, id)
    requires var wf := w.db.workflows[id];
             && (wf.phase.SellPhase? || wf.phase.BuyPhase?) && !SomeUnanswered(wf.legs, SideOf(wf)) && SomeInFlight(wf.legs, SideOf(wf))
             && (wf.phase.SellPhase? ==> !SomeLeg(wf.legs, Sell, Planned))
    ensures var t := ReconcileCurrent(w, id, reply);
            ReconcilesAs(w, id, SideOf(w.db.workflows[id]), reply, At(w, t.worlds), t.outcome)
  {
    hide Good, ReconcileCurrent, RecordsUsable, NoConflict, OwnOrders, AllReportedFilled, Reconciled, SomeUnanswered;
    var wf := w.db.workflows[id];
    var i :| 0 <= i < |wf.legs| && wf.legs[i].spec.side == SideOf(wf) && wf.legs[i].status in {BrokerAccepted, LegPending, LegPartial};
    assert IsSubmitted(wf.legs, SideOf(wf), i) && InFlight(wf.legs[i]);
    NothingPlanned(wf.legs);
    ReconcileFinishes(w, id, reply);
    ReconcileMakes(w, id, reply);
  }

  lemma NothingPlanned(legs: seq<Leg>)
    ensures SomeIs(legs, Sell, Planned) <==> SomeLeg(legs, Sell, Planned)
  {
  }

  lemma InstallDoes(w: World, id: nat, replan: Option<seq<LegSpec>>)
    requires Inv(w.db) && ActiveIn(w.db, id) && w.db.workflows[id].phase.ReconcilePhase?
    ensures var t := if replan.None? then Trace([], Err(ReplanFailed)) else Commit(w, InstallBuys(w.db, id, replan.value));
            Installs(w, id, replan, At(w, t.worlds), t.outcome)
  {
    hide Inv, InstallBuys, Becomes, Installable;
    if replan.Some? {
      InstallMakes(w.db, id, replan.value);
    }
  }

  lemma StartDoes(w: World, id: nat)
    requires Inv(w.db) && ActiveIn(w.db, id) && w.db.workflows[id].phase.NoPhase?
    ensures var t := Commit(w, StartWorkflow(w.db, id)); Starts(w, id, At(w, t.worlds), t.outcome)
  {
    hide Inv, StartWorkflow, Becomes;
    StartMakes(w.db, id);
  }

  // Created, and then started: the two commits together.
  lemma CreateThenStart(w: World, plan: Plan, sells: seq<LegSpec>)
    requires Inv(w.db) && NonComplete(w.db) == {} && Awaiting(w.db) == {}
    ensures var created := Commit(w, CreateWorkflow(w.db, plan, sells)); var w2 := At(w, created.worlds);
            var started := Commit(w2, StartWorkflow(w2.db, Id(plan)));
            if Sound(sells, Sell) && Id(plan) !in w.db.workflows then
              && created.outcome.Ok? && started.outcome.Ok? && At(w2, started.worlds).posts == w.posts
              && Becomes(w.db, At(w2, started.worlds).db, Id(plan),
                         Workflow(plan, Active, if sells == [] then ReconcilePhase else SellPhase, PlannedLegs(sells)),
                         if sells == [] then Reconciling else SellPending)
            else created.outcome.Err? || (started.outcome.Err? && w2.db == w.db && w2.posts == w.posts)
  {
    hide Inv, AwaitsControl, CreateWorkflow, StartWorkflow, Becomes, Sound, Awaiting;
    CreateMakes(w.db, plan, sells);
    if CreateWorkflow(w.db, plan, sells).Ok? {
      var db := CreateWorkflow(w.db, plan, sells).value;
      if Sound(sells, Sell) && Id(plan) !in w.db.workflows {
        BecomesFacts(w.db, db, Id(plan), Workflow(plan, Active, NoPhase, PlannedLegs(sells)), PlanCreated);
        StartMakes(db, Id(plan));
        PlannedLegsAre(sells);
        TwoBecome(w.db, db, StartWorkflow(db, Id(plan)).value, Id(plan), Workflow(plan, Active, NoPhase, PlannedLegs(sells)), PlanCreated);
      } else {
        NoStart(w.db, Id(plan));
      }
    }
  }

  lemma BecomesFacts(db: Db, next: Db, id: nat, w: Workflow, exec: ExecState)
    requires Becomes(db, next, id, w, exec)
    ensures id in next.workflows && next.workflows[id] == w
  {
  }

  lemma TwoBecome(db: Db, mid: Db, next: Db, id: nat, w: Workflow, exec: ExecState)
    requires Becomes(db, mid, id, w, exec)
    ensures forall v, to :: Becomes(mid, next, id, v, to) ==> Becomes(db, next, id, v, to)
  {
  }

  // Nothing starts a workflow that is not there, or not ACTIVE any more.
  lemma NoStart(db: Db, id: nat)
    requires NonComplete(db) == {}
    ensures StartWorkflow(db, id).Err?
  {
    hide MoveAndCommit;
    if id in db.workflows {
      assert id !in NonComplete(db);
    }
  }

  lemma {:induction false} ControlsRest(w: World, cs: seq<Control>)
    requires Resting(w.db)
    ensures var next := At(w, Controls(w, cs).worlds); Resting(next.db) && next.posts == w.posts
    decreases |cs|
  {
    hide ControlTransition, Resting;
    if cs != [] && cs[0].key.ControlKey? {
      ControlMakes(w.db, cs[0]);
      if ControlTransition(w.db, cs[0]).Ok? {
        var next := w.(db := ControlTransition(w.db, cs[0]).value);
        ControlsRest(next, cs[1..]);
        EndThen(w, [next], Controls(next, cs[1..]).worlds);
      }
    }
  }

  lemma PlanDoes(w: World, o: Oracle)
    requires Good(w) && NonComplete(w.db) == {} && Awaiting(w.db) == {}
    ensures var t := PlanNewWork(w, o); Plans(w, o, At(w, t.worlds), t.outcome)
  {
    hide Inv, PostsOk, Controls, AwaitsControl, CreateWorkflow, StartWorkflow, Sound, Becomes, Finalizes, Resting, ControlTarget, Awaiting;
    Rests(w.db);
    ControlsRest(w, o.prepare);
    ControlsSteps(w, o.prepare);
    var prepared := Controls(w, o.prepare);
    var w1 := At(w, prepared.worlds);
    StepsKeepGood(w, prepared.worlds);
    if prepared.outcome.Ok? {
      match o.plan
      case PlanNothing =>
      case PlanCommit(decision, rebalance) =>
        FinalizeMakes(w1, Plan(decision, rebalance, 0), o.commit);
        EndThen(w, prepared.worlds, Controls(w1, ControlTarget(decision, rebalance, o.commit)).worlds);
      case PlanOrders(plan, sells) =>
        assert NonComplete(w1.db) == {} && Awaiting(w1.db) == {};
        CreateThenStart(w1, plan, sells);
        var created := Commit(w1, CreateWorkflow(w1.db, plan, sells));
        var w2 := At(w1, created.worlds);
        var started := Commit(w2, StartWorkflow(w2.db, Id(plan)));
        assert prepared.worlds + created.worlds + started.worlds == prepared.worlds + (created.worlds + started.worlds);
        EndThen(w, prepared.worlds, created.worlds + started.worlds);
        EndThen(w1, created.worlds, started.worlds);
    }
  }

  // With nothing open the store rests.
  lemma Rests(db: Db)
    requires Inv(db) && NonComplete(db) == {}
    ensures Resting(db)
  {
    hide AwaitsControl, LegsOk, KeysOk, Alone;
    OpenIsUnfinished(db);
    NothingActive(db);
  }

  lemma ActDoes(w: World, d: Decision, o: Oracle)
    requires Good(w) && DistinctFills(w.db.ledger) && (Chosen(w.db, d) || (d.action.ManualReconciliation? && SoundDecision(w.db, d)))
    requires d.action.NoWorkflow? ==> Awaiting(w.db) == {}
    ensures var t := Act(w, d, o); Does(w, d, o, At(w, t.worlds), t.outcome)
  {
    hide Inv, PostsOk, Submission, ReconcileCurrent, PlanNewWork, StartWorkflow, InstallBuys, SomeLeg, SomeUnanswered, SomeInFlight,
      SafeToSubmit, Submits, ReconcilesAs, Plans, Installs, Starts, Awaiting;
    match d.action
    case NoWorkflow => PlanDoes(w, o);
    case StartAction => StartDoes(w, d.workflow.value);
    case SubmitSell => SubmitDoes(w, d.workflow.value, Sell, o);
    case SubmitBuy =>
      BuyIsPlanned(w.db, d.workflow.value);
      SubmitDoes(w, d.workflow.value, Buy, o);
    case ReconcileSell =>
      SellsInFlight(w.db, d.workflow.value);
      ReconcileDoes(w, d.workflow.value, o.reconcile);
    case ReconcileBuy => ReconcileDoes(w, d.workflow.value, o.reconcile);
    case ReplanBuys => InstallDoes(w, d.workflow.value, o.replan);
    case _ =>
  }

  // The control rows of a complete workflow are written, or the cycle raises.
  ghost predicate FinalizesFor(w: World, id: nat, cs: seq<Control>, next: World, outcome: Result<(), ExecError>) {
    && id in w.db.workflows
    && var plan := w.db.workflows[id].plan;
       && (outcome.Ok? <==> Finalizes(w.db.journal, plan, cs))
       && OnlyJournal(w.db, next.db) && next.posts == w.posts
       && (outcome.Ok? ==> !AwaitsControl(next.db, w.db.workflows[id]))
  }

  // Any cycle of a run, with any answers from outside.  A complete workflow without its control rows
  // gets them, and nothing else is done.  Otherwise recovery answers, and what the cycle then does is
  // what the chosen action calls for.
  lemma CycleDoes(w: World, o: Oracle)
    requires Good(w) && DistinctFills(w.db.ledger)
    ensures var t := Cycle(w, o); var next := At(w, t.worlds);
            if Awaiting(w.db) != {} then
              exists id :: id in Awaiting(w.db) && FinalizesFor(w, id, o.finalize, next, t.outcome)
            else
              && Classify(w.db, None).Ok?
              && var (db, d) := Classify(w.db, None).value; Does(w.(db := db), d, o, next, t.outcome)
  {
    hide Inv, PostsOk, Classify, Act, Controls, AwaitsControl, Does, Chosen, ControlTarget, Finalizes, Resting, SoundDecision;
    OpenIsUnfinished(w.db);
    if |Awaiting(w.db)| == 1 {
      var id := Only(Awaiting(w.db));
      var plan := w.db.workflows[id].plan;
      assert id in w.db.workflows && NonComplete(w.db) == {};
      Rests(w.db);
      FinalizeMakes(w, plan, o.finalize);
      var t := Controls(w, ControlTarget(plan.decision, plan.rebalance, o.finalize));
      if t.outcome.Ok? {
        NotAwaited(At(w, t.worlds).db, w.db.workflows[id]);
      }
      assert FinalizesFor(w, id, o.finalize, At(w, t.worlds), t.outcome);
    } else {
      assert Awaiting(w.db) == {};
      ChosenFor(w.db);
      RecoveryIsTotal(w.db);
      var (db, d) := Classify(w.db, None).value;
      var w1 := w.(db := db);
      ClassifyStep(w, db);
      StepsKeepGood(w, [w1]);
      NothingAwaits(w.db, db, d);
      SameLedger(w.db, db);
      ActDoes(w1, d, o);
      EndThen(w, [w1], Act(w1, d, o).worlds);
    }
  }

  lemma NotAwaited(db: Db, w: Workflow)
    requires FindRow(db.journal, ControlKey(w.plan.decision, StrategyFinal)).Some?
    requires w.plan.rebalance ==> FindRow(db.journal, ControlKey(w.plan.decision, MembershipFinal)).Some?
    ensures !AwaitsControl(db, w)
  {
  }

  // Making an unanswered intent durable books nothing.
  lemma SameLedger(db: Db, next: Db)
    requires next == db || exists id :: RequireReconciliation(db, id).Ok? && RequireReconciliation(db, id).value.0 == next
    ensures next.ledger == db.ledger
  {
    hide MoveAndCommit, RequireReconciliation;
    if next != db {
      var id :| RequireReconciliation(db, id).Ok? && RequireReconciliation(db, id).value.0 == next;
      RequireBooksNothing(db, id);
    }
  }

  lemma RequireBooksNothing(db: Db, id: nat)
    ensures RequireReconciliation(db, id).Ok? ==> RequireReconciliation(db, id).value.0.ledger == db.ledger
  {
    hide MoveAndCommit;
    if id in db.workflows {
      var w := db.workflows[id].(status := ReconciliationRequired);
      MoveRewrites(World(db, []), id, w, AmbiguousIntent, ReconRequired);
    }
  }
}
