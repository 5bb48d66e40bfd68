// That a rebalance ends: as long as no cycle raises, orders may go out, and the broker reports what
// it accepted as FILLED, a live workflow completes.
module Completion {
  import opened Common
  import opened Capital
  import opened ExecutionTables
  import opened Executor
  import opened ExecutionSteps
  import opened ExecutionInvariant
  import opened ExecutionKeeps
  import opened PostOrder
  import opened CycleSteps
  import opened CycleRuns
  import opened DecisionTable
  import opened Refusals
  import opened Booking
  import opened Reconciliation
  import opened Submissions
  import opened CycleMakes
  import DearBuy

  /* ---- What is left to do ---- */

  function LegTodo(leg: Leg): nat {
    if leg.status.Planned? then 2 else if leg.status.LegFilled? then 0 else 1
  }

  function Todo(legs: seq<Leg>): nat {
    if legs == [] then 0 else Todo(DropLast(legs)) + LegTodo(Last(legs))
  }

  function PhasesLeft(phase: Phase): nat {
    match phase
    case NoPhase => 3
    case SellPhase => 2
    case ReconcilePhase => 1
    case BuyPhase => 0
  }

  lemma {:induction false} TodoFalls(legs: seq<Leg>, next: seq<Leg>)
    requires |next| == |legs| && forall i :: 0 <= i < |legs| ==> LegTodo(next[i]) <= LegTodo(legs[i])
    ensures Todo(next) <= Todo(legs)
    ensures (exists i :: 0 <= i < |legs| && LegTodo(next[i]) < LegTodo(legs[i])) ==> Todo(next) < Todo(legs)
  {
    if legs != [] {
      TodoFalls(DropLast(legs), DropLast(next));
      if i :| 0 <= i < |legs| && LegTodo(next[i]) < LegTodo(legs[i]) {
        assert i < |legs| - 1 ==> LegTodo(DropLast(next)[i]) < LegTodo(DropLast(legs)[i]);
      }
    }
  }

  /* ---- One cycle ---- */

  ghost predicate NoneOpen(legs: seq<Leg>) {
    forall i :: 0 <= i < |legs| ==> !legs[i].status.IntentRecorded?
  }

  // A live workflow in a state of a run, without an unanswered intent.
  ghost predicate Live(w: World, id: nat) {
    Good(w) && DistinctFills(w.db.ledger) && ActiveIn(w.db, id) && NoneOpen(w.db.workflows[id].legs)
  }

  // The cycle does not raise, orders may go out, and every order out is reported FILLED.
  ghost predicate Cooperates(w: World, id: nat, o: Oracle)
    requires id in w.db.workflows
  {
    && Cycle(w, o).outcome.Ok? && o.allowSubmit
    && AllReportedFilled(o.reconcile, w.db.workflows[id].legs, SideOf(w.db.workflows[id]))
  }

  // Less is left to do, or nothing at all.
  ghost predicate Advanced(w: World, id: nat, next: World)
    requires id in w.db.workflows
  {
    && id in next.db.workflows && DistinctFills(next.db.ledger)
    && var before, after := w.db.workflows[id], next.db.workflows[id];
       || after.status.Complete?
       || (after.status.Active? && NoneOpen(after.legs)
           && (|| PhasesLeft(after.phase) < PhasesLeft(before.phase)
               || (after.phase == before.phase && Todo(after.legs) < Todo(before.legs))))
  }

  lemma LiveChoice(w: World, id: nat)
    requires Live(w, id)
    ensures Awaiting(w.db) == {} && Classify(w.db, None) == Ok((w.db, Decision(Some(id), ActionFor(w.db.workflows[id]))))
    ensures var legs := w.db.workflows[id].legs; !SomeUnanswered(legs, Sell) && !SomeUnanswered(legs, Buy)
  {
    hide Inv, PostsOk, Classify, Awaiting, NonComplete, SomeLeg, SomeInFlight;
    DearBuy.NotAwaiting(w.db, id);
    ClassifyTable(w.db);
    RecoveryIsTotal(w.db);
    assert IsOpen(w.db, id);
  }

  lemma SentTodo(legs: seq<Leg>, after: seq<Leg>, queue: seq<nat>, replies: seq<PostReply>)
    requires |queue| <= |replies| && (forall j :: 0 <= j < |queue| ==> replies[j].Accepted?)
    requires LegsSent(legs, after, queue, replies, |queue|) && queue != [] && NoneOpen(legs)
    requires forall j :: 0 <= j < |queue| ==> queue[j] < |legs| && legs[queue[j]].status.Planned?
    ensures NoneOpen(after) && Todo(after) < Todo(legs)
  {
    assert queue[..|queue|] == queue;
    forall i: nat | i < |legs| ensures LegTodo(after[i]) <= LegTodo(legs[i]) && !after[i].status.IntentRecorded? {
      if i in queue {
        var j :| 0 <= j < |queue| && queue[j] == i;
      }
    }
    assert LegTodo(after[queue[0]]) < LegTodo(legs[queue[0]]);
    TodoFalls(legs, after);
  }

  lemma SubmitAdvances(w: World, id: nat, side: Side, o: Oracle, next: World, outcome: Result<(), ExecError>)
    requires Live(w, id) && Submits(w, id, side, o, next, outcome) && outcome.Ok? && o.allowSubmit
    ensures Advanced(w, id, next)
  {
    hide Good, NextBuyTooDear, LegsSent, Queue, PostsFor, Todo;
    var queue, k :| QueueSent(w, id, side, o.replies, queue, k, next, outcome);
    QueuePlanned(w.db.workflows[id].legs, side, queue);
    SentTodo(w.db.workflows[id].legs, next.db.workflows[id].legs, queue, o.replies);
  }

  lemma QueuePlanned(legs: seq<Leg>, side: Side, queue: seq<nat>)
    requires Queue(legs, side, queue)
    ensures forall j :: 0 <= j < |queue| ==> queue[j] < |legs| && legs[queue[j]].status.Planned?
  {
    forall j | 0 <= j < |queue| ensures queue[j] < |legs| && legs[queue[j]].status.Planned? {
      assert queue[j] in queue;
    }
  }

  lemma ReconcileAdvances(w: World, id: nat, side: Side, reply: ReconcileReply, next: World, outcome: Result<(), ExecError>)
    requires Live(w, id) && PhaseOf(w.db.workflows[id].phase, side) && ReconcilesAs(w, id, side, reply, next, outcome) && outcome.Ok?
    requires AllReportedFilled(reply, w.db.workflows[id].legs, side)
    requires exists i :: 0 <= i < |w.db.workflows[id].legs| && w.db.workflows[id].legs[i].spec.side == side
                         && w.db.workflows[id].legs[i].status in {BrokerAccepted, LegPending, LegPartial}
    ensures Advanced(w, id, next)
  {
    hide Good, RecordsUsable, NoConflict, OwnOrders, ReportedRow, ReportedFill, Deltas, Fees;
    var legs, after := w.db.workflows[id].legs, next.db.workflows[id].legs;
    forall i | 0 <= i < |legs|
      ensures LegTodo(after[i]) <= LegTodo(legs[i]) && !after[i].status.IntentRecorded?
      ensures IsSubmitted(legs, side, i) ==> after[i].status.LegFilled?
    {
    }
    assert Reconciliation.AllFilled(after, side);
    FilledOnly(after, side);
    var i :| 0 <= i < |legs| && legs[i].spec.side == side && legs[i].status in {BrokerAccepted, LegPending, LegPartial};
    assert LegTodo(after[i]) < LegTodo(legs[i]);
    TodoFalls(legs, after);
  }

  lemma StartAdvances(w: World, id: nat, next: World, outcome: Result<(), ExecError>)
    requires Live(w, id) && w.db.workflows[id].phase.NoPhase? && Starts(w, id, next, outcome)
    ensures Advanced(w, id, next)
  {
  }

  lemma InstallAdvances(w: World, id: nat, replan: Option<seq<LegSpec>>, next: World, outcome: Result<(), ExecError>)
    requires Live(w, id) && w.db.workflows[id].phase.ReconcilePhase? && Installs(w, id, replan, next, outcome) && outcome.Ok?
    ensures Advanced(w, id, next)
  {
    hide Good, Installable;
    PlannedLegsAre(replan.value);
  }

  // A cooperative cycle brings a live workflow forward, and leaves it live or complete.
  lemma CycleAdvances(w: World, id: nat, o: Oracle)
    requires Live(w, id) && Cooperates(w, id, o)
    ensures var next := At(w, Cycle(w, o).worlds);
            Advanced(w, id, next) && (next.db.workflows[id].status.Complete? || Live(next, id))
  {
    hide Inv, PostsOk, Cycle, Classify, Awaiting, Steps, Does, Todo, ActionFor, AllReportedFilled, NoneOpen;
    var next, outcome := At(w, Cycle(w, o).worlds), Cycle(w, o).outcome;
    LiveChoice(w, id);
    CycleDoes(w, o);
    assert w.(db := w.db) == w;
    CycleTakesSteps(w, o);
    StepsKeepGood(w, Cycle(w, o).worlds);
    ActionAdvances(w, id, o, next, outcome);
  }

  lemma ActionAdvances(w: World, id: nat, o: Oracle, next: World, outcome: Result<(), ExecError>)
    requires Live(w, id) && Does(w, Decision(Some(id), ActionFor(w.db.workflows[id])), o, next, outcome) && outcome.Ok? && o.allowSubmit
    requires var legs := w.db.workflows[id].legs; !SomeUnanswered(legs, Sell) && !SomeUnanswered(legs, Buy)
    requires AllReportedFilled(o.reconcile, w.db.workflows[id].legs, SideOf(w.db.workflows[id]))
    ensures Advanced(w, id, next)
  {
    hide Good, Submits, ReconcilesAs, Installs, Starts, Plans, Todo, SomeLeg, SomeUnanswered, AllReportedFilled, NoneOpen, Advanced;
    var wf := w.db.workflows[id];
    match wf.phase
    case NoPhase => StartAdvances(w, id, next, outcome);
    case ReconcilePhase => InstallAdvances(w, id, o.replan, next, outcome);
    case SellPhase =>
      if SomeLeg(wf.legs, Sell, Planned) {
        SubmitAdvances(w, id, Sell, o, next, outcome);
      } else {
        SellsOut(w, id);
        ReconcileAdvances(w, id, Sell, o.reconcile, next, outcome);
      }
    case BuyPhase =>
      if SomeInFlight(wf.legs, Buy) {
        ReconcileAdvances(w, id, Buy, o.reconcile, next, outcome);
      } else {
        SubmitAdvances(w, id, Buy, o, next, outcome);
      }
  }

  // With no sell planned some sell is out.
  lemma SellsOut(w: World, id: nat)
    requires Live(w, id) && w.db.workflows[id].phase.SellPhase? && !SomeLeg(w.db.workflows[id].legs, Sell, Planned)
    ensures SomeInFlight(w.db.workflows[id].legs, Sell)
  {
    hide PostsOk;
    PlanIs(w.db, id);
    var legs := w.db.workflows[id].legs;
    var i :| 0 <= i < |legs| && !legs[i].status.LegFilled?;
    assert legs[i].spec.side.Sell? && legs[i].status != Planned && NotBad(legs[i]);
  }

  /* ---- All cycles ---- */

  // The world after n cycles, each left to finish.
  ghost function After(w: World, outside: nat -> Oracle, n: nat): World {
    if n == 0 then w
    else
      var before := After(w, outside, n - 1);
      At(before, Cycle(before, outside(n - 1)).worlds)
  }

  // As long as the workflow is live the outside cooperates.
  ghost predicate AlwaysCooperates(w: World, id: nat, outside: nat -> Oracle) {
    forall n: nat :: Live(After(w, outside, n), id) ==> Cooperates(After(w, outside, n), id, outside(n))
  }

  lemma NextAfter(w: World, outside: nat -> Oracle, n: nat)
    ensures After(w, outside, n + 1) == (var was := After(w, outside, n); At(was, Cycle(was, outside(n)).worlds))
  {
    hide Cycle;
  }

  lemma {:induction false} GoesOn(w: World, id: nat, outside: nat -> Oracle, n: nat) returns (m: nat)
    requires AlwaysCooperates(w, id, outside) && Live(After(w, outside, n), id)
    requires id in After(w, outside, n).db.workflows
    ensures var end := After(w, outside, m); id in end.db.workflows && end.db.workflows[id].status.Complete?
    decreases PhasesLeft(After(w, outside, n).db.workflows[id].phase), Todo(After(w, outside, n).db.workflows[id].legs)
  {
    hide Live, Cooperates, Cycle, Todo, After, NoneOpen;
    CycleAdvances(After(w, outside, n), id, outside(n));
    NextAfter(w, outside, n);
    m := n + 1;
    if !After(w, outside, n + 1).db.workflows[id].status.Complete? {
      m := GoesOn(w, id, outside, n + 1);
    }
  }

  lemma LiveIn(w: World, id: nat)
    requires Live(w, id)
    ensures id in w.db.workflows
  {
  }

  // A live workflow completes: from any state of a run, however many buys the replan calls for and
  // whatever the fills, after some number of cycles that do not raise, with orders allowed out and
  // every order that went out reported FILLED.
  lemma EveryRebalanceEnds(w: World, id: nat, outside: nat -> Oracle) returns (m: nat)
    requires Live(w, id) && AlwaysCooperates(w, id, outside)
    ensures var end := After(w, outside, m); id in end.db.workflows && end.db.workflows[id].status.Complete?
  {
    hide Live, Cooperates;
    LiveIn(w, id);
    m := GoesOn(w, id, outside, 0);
  }
}
