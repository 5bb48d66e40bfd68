// classify_recovery, the broker executor and run_cycle on an ExecutionStore, step by step.
// Each goes through exactly the worlds of its trace and returns its outcome.
module CycleDriver {
  import opened Common
  import C = Capital
  import T = ExecutionTables
  import X = Executor
  import S = ExecutionStores
  import CycleSteps

  type Error = T.ExecError
  type World = X.World
  type Store = S.ExecutionStore

  ghost predicate Traced<U>(
    was: World, wasWorlds: seq<World>, now: World, nowWorlds: seq<World>, t: X.Trace<U>, outcome: Result<U, Error>)
  {
    now == X.At(was, t.worlds) && nowWorlds == wasWorlds + t.worlds && outcome == t.outcome
  }

  lemma TracedMore(was: World, wasWorlds: seq<World>, a: seq<World>, b: seq<World>)
    ensures X.At(was, a + b) == X.At(X.At(was, a), b)
    ensures wasWorlds + a + b == wasWorlds + (a + b)
  {
    CycleSteps.EndThen(was, a, b);
  }

  lemma ThenThen<U>(a: seq<World>, b: seq<World>, rest: X.Trace<U>)
    ensures X.Then(a, X.Then(b, rest)) == X.Then(a + b, rest)
  {
    assert a + (b + rest.worlds) == (a + b) + rest.worlds;
  }

  function Outcome(error: Option<Error>): Result<(), Error> {
    if error.Some? then Err(error.value) else Ok(())
  }

  /* ---- classify_recovery ---- */

  method ClassifyRecovery(store: Store, named: Option<nat>) returns (r: Result<X.Decision, Error>)
    modifies store
    ensures match X.Classify(old(store.View().db), named)
            case Err(e) => r == Err(e) && store.View() == old(store.View()) && store.worlds == old(store.worlds)
            case Ok((db, d)) =>
              r == Ok(d) && store.View() == old(store.View()).(db := db) && store.worlds == old(store.worlds) + [store.View()]
  {
    hide X.ClassifyActive, T.RequireReconciliation;
    var open := X.NonComplete(store.View().db);
    if |open| > 1 {
      return Err(T.Invariant);
    }
    if open == {} && !store.machine.exec.Idle? {
      return Err(T.Invariant);
    }
    var id := 0;
    if named.None? {
      if open == {} {
        store.worlds := store.worlds + [store.View()];
        return Ok(X.Decision(None, X.NoWorkflow));
      }
      id := X.Only(open);
    } else {
      if open != {} && X.Only(open) != named.value {
        return Err(T.Invariant);
      }
      if named.value !in store.workflows {
        return Err(T.Invariant);
      }
      id := named.value;
    }
    r := ClassifyOne(store, id);
  }

  lemma RequireUnchanged(db: T.Db, id: nat)
    ensures T.RequireReconciliation(db, id).Ok? && !T.RequireReconciliation(db, id).value.1 ==>
              T.RequireReconciliation(db, id).value.0 == db
  {
    hide T.MoveAndCommit;
  }

  method ClassifyOne(store: Store, id: nat) returns (r: Result<X.Decision, Error>)
    requires id in store.workflows
    modifies store
    ensures match X.ClassifyWorkflow(old(store.View().db), id)
            case Err(e) => r == Err(e) && store.View() == old(store.View()) && store.worlds == old(store.worlds)
            case Ok((db, d)) =>
              r == Ok(d) && store.View() == old(store.View()).(db := db) && store.worlds == old(store.worlds) + [store.View()]
  {
    hide T.RequireReconciliation, X.ClassifySell, X.ClassifyBuy, X.LegShapeOk, T.LegsOf, T.AnyAmbiguous, X.SomeStatus;
    var w, exec := store.workflows[id], store.machine.exec;
    var action := X.ManualReconciliation;
    if w.status.Complete? {
      if !exec.Idle? {
        return Err(T.Invariant);
      }
      action := X.AlreadyComplete;
    } else if w.status.Failed? {
      if !exec.ExecFailed? {
        return Err(T.Invariant);
      }
      action := X.FailedReview;
    } else if w.status.ReconciliationRequired? || exec.ReconRequired? {
      if !(w.status.ReconciliationRequired? && exec.ReconRequired?) {
        return Err(T.Invariant);
      }
    } else if w.phase.NoPhase? {
      if !exec.PlanCreated? || T.LegsOf(w.legs, C.Buy) != [] {
        return Err(T.Invariant);
      }
      action := X.StartAction;
    } else if w.phase.ReconcilePhase? {
      if !exec.Reconciling? || T.LegsOf(w.legs, C.Buy) != [] {
        return Err(T.Invariant);
      }
      if exists i :: 0 <= i < |w.legs| && w.legs[i].spec.side.Sell? && !w.legs[i].status.LegFilled? {
        return Err(T.Invariant);
      }
      action := X.ReplanBuys;
    } else {
      var legs := T.LegsOf(w.legs, if w.phase.SellPhase? then C.Sell else C.Buy);
      if !X.LegShapeOk(legs) {
        return Err(T.Invariant);
      }
      if T.AnyAmbiguous(legs) {
        ghost var before := store.worlds;
        RequireUnchanged(store.View().db, id);
        var changed := store.RequireReconciliation(id);
        if changed.Err? {
          return Err(changed.error);
        }
        if !changed.value {
          store.worlds := before;
          return Err(T.Invariant);
        }
        return Ok(X.Decision(Some(id), X.ManualReconciliation));
      }
      if X.SomeStatus(legs, T.LegUnknown) || X.SomeStatus(legs, T.LegFailed) {
        return Err(T.Invariant);
      }
      var decision := if w.phase.SellPhase? then X.ClassifySell(id, legs, exec) else X.ClassifyBuy(id, legs, exec, store.machine.account);
      if decision.Err? {
        return Err(decision.error);
      }
      store.worlds := store.worlds + [store.View()];
      return decision;
    }
    store.worlds := store.worlds + [store.View()];
    return Ok(X.Decision(Some(id), action));
  }

  /* ---- submit_current_phase ---- */

  // The part of a submission that concerns its first leg.
  ghost function FirstLeg(w: World, id: nat, side: C.Side, leg: nat, reply: X.PostReply): X.Trace<()> {
    match T.RecordIntent(w.db, id, leg)
    case Err(e) => X.Trace([], Err(e))
    case Ok(intended) =>
      var w1 := w.(db := intended);
      var w2 := w1.(posts := w.posts + [X.Post(id, leg, side)]);
      if reply.Accepted? then
        match T.RecordAcceptance(intended, id, leg, reply.orderId)
        case Err(e) => X.Trace([w1, w2], Err(e))
        case Ok(accepted) => X.Trace([w1, w2, w2.(db := accepted)], Ok(()))
      else
        match T.RequireReconciliation(intended, id)
        case Err(e) => X.Trace([w1, w2], Err(e))
        case Ok((required, _)) =>
          X.Trace([w1, w2, w2.(db := required)], Err(if reply.Raised? then T.BrokerRaised else T.SubmissionAmbiguous))
  }

  lemma LegByLeg(w: World, id: nat, side: C.Side, candidates: seq<nat>, replies: seq<X.PostReply>)
    requires candidates != []
    ensures var reply := if replies == [] then X.Raised else replies[0];
            var head := FirstLeg(w, id, side, candidates[0], reply);
            && (head.outcome.Ok? ==>
                  && replies != []
                  && X.SubmitLegs(w, id, side, candidates, replies) ==
                     X.Then(head.worlds, X.SubmitLegs(X.At(w, head.worlds), id, side, candidates[1..], replies[1..])))
            && (head.outcome.Err? ==> X.SubmitLegs(w, id, side, candidates, replies) == X.Trace(head.worlds, Err(head.outcome.error)))
  {
    hide T.RecordIntent, T.RecordAcceptance, T.RequireReconciliation;
  }

  method SubmitLeg(store: Store, id: nat, side: C.Side, leg: nat, reply: X.PostReply) returns (r: Result<(), Error>)
    modifies store
    ensures Traced(old(store.View()), old(store.worlds), store.View(), store.worlds,
                   FirstLeg(old(store.View()), id, side, leg, reply), r)
  {
    hide T.RecordIntent, T.RecordAcceptance, T.RequireReconciliation;
    var error := store.RecordLegIntent(id, leg);
    if error.Some? {
      return Err(error.value);
    }
    store.PostOrder(id, leg, side);
    if reply.Accepted? {
      error := store.RecordBrokerAcceptance(id, leg, reply.orderId);
      return Outcome(error);
    }
    var required := store.RequireReconciliation(id);
    if required.Err? {
      return Err(required.error);
    }
    return Err(if reply.Raised? then T.BrokerRaised else T.SubmissionAmbiguous);
  }

  method SubmitCandidates(store: Store, id: nat, side: C.Side, candidates: seq<nat>, replies: seq<X.PostReply>)
    returns (r: Result<seq<nat>, Error>)
    modifies store
    ensures Traced(old(store.View()), old(store.worlds), store.View(), store.worlds,
                   X.SubmitLegs(old(store.View()), id, side, candidates, replies), r)
  {
    hide X.SubmitLegs, FirstLeg;
    ghost var was, wasWorlds, all := store.View(), store.worlds, X.SubmitLegs(store.View(), id, side, candidates, replies);
    ghost var done: seq<World> := [];
    var todo, answers := candidates, replies;
    while todo != []
      invariant store.View() == X.At(was, done) && store.worlds == wasWorlds + done
      invariant all == X.Then(done, X.SubmitLegs(store.View(), id, side, todo, answers))
      decreases |todo|
    {
      ghost var w := store.View();
      var reply := if answers == [] then X.Raised else answers[0];
      ghost var head := FirstLeg(w, id, side, todo[0], reply);
      LegByLeg(w, id, side, todo, answers);
      TracedMore(was, wasWorlds, done, head.worlds);
      var submitted := SubmitLeg(store, id, side, todo[0], reply);
      if submitted.Err? {
        return Err(submitted.error);
      }
      ThenThen(done, head.worlds, X.SubmitLegs(store.View(), id, side, todo[1..], answers[1..]));
      done := done + head.worlds;
      todo, answers := todo[1..], answers[1..];
    }
    NoLegs(store.View(), id, side, answers);
    assert done + [] == done;
    return Ok([]);
  }

  lemma NoLegs(w: World, id: nat, side: C.Side, replies: seq<X.PostReply>)
    ensures X.SubmitLegs(w, id, side, [], replies) == X.Trace([], Ok([]))
  {
  }

  // The submission without its lock: refused, stopped at an ambiguous intent, or leg by leg.
  method SubmitCurrentPhase(store: Store, id: nat, pendingKnown: bool, replies: seq<X.PostReply>)
    returns (r: Result<seq<nat>, Error>)
    modifies store
    ensures Traced(old(store.View()), old(store.worlds), store.View(), store.worlds,
                   X.SubmitCurrent(old(store.View()), id, pendingKnown, replies), r)
  {
    hide T.RequireReconciliation, X.BuyCandidates, X.SubmitLegs, T.LegsOf, T.AnyAmbiguous, X.PlannedIndexes;
    if id !in store.workflows {
      return Err(T.UnknownWorkflow);
    }
    var w := store.workflows[id];
    if !w.status.Active? {
      return Err(T.PhaseNotReady);
    }
    if !w.phase.SellPhase? && !w.phase.BuyPhase? {
      return Err(T.PhaseNotReady);
    }
    var side := if w.phase.SellPhase? then C.Sell else C.Buy;
    var legs := T.LegsOf(w.legs, side);
    if legs == [] {
      return Err(T.PhaseNotReady);
    }
    if T.AnyAmbiguous(legs) {
      var required := store.RequireReconciliation(id);
      return Err(if required.Err? then required.error else T.SubmissionAmbiguous);
    }
    if !pendingKnown {
      return Err(T.BrokerRaised);
    }
    var candidates := if side.Sell? then Ok(X.PlannedIndexes(w.legs, C.Sell)) else X.BuyCandidates(store.View().db, w.legs);
    if candidates.Err? {
      return Err(candidates.error);
    }
    r := SubmitCandidates(store, id, side, candidates.value, replies);
  }

  /* ---- reconcile_current_phase ---- */

  method ApplyOrderFills(store: Store, events: seq<C.FillEvent>, decision: nat) returns (r: Result<(), Error>)
    modifies store
    ensures Traced(old(store.View()), old(store.worlds), store.View(), store.worlds,
                   X.ApplyEvents(old(store.View()), events, decision), r)
  {
    hide T.ApplyFillEvent, X.ApplyEvents;
    ghost var was, wasWorlds, all := store.View(), store.worlds, X.ApplyEvents(store.View(), events, decision);
    ghost var done: seq<World> := [];
    var todo := events;
    while todo != []
      invariant store.View() == X.At(was, done) && store.worlds == wasWorlds + done
      invariant all == X.Then(done, X.ApplyEvents(store.View(), todo, decision))
      decreases |todo|
    {
      EventsFirst(store.View(), todo, decision);
      assert done + [] == done;
      var error := store.ApplyFillEvent(todo[0], decision);
      if error.Some? {
        return Err(error.value);
      }
      ghost var next := store.View();
      TracedMore(was, wasWorlds, done, [next]);
      ThenThen(done, [next], X.ApplyEvents(next, todo[1..], decision));
      done := done + [next];
      todo := todo[1..];
    }
    EventsFirst(store.View(), todo, decision);
    assert done + [] == done;
    return Ok(());
  }

  lemma EventsFirst(w: World, events: seq<C.FillEvent>, decision: nat)
    ensures X.ApplyEvents(w, events, decision) ==
            if events == [] then X.Trace([], Ok(()))
            else if T.ApplyFillEvent(w.db, events[0], decision).Err? then X.Trace([], Err(T.ApplyFillEvent(w.db, events[0], decision).error))
            else var next := w.(db := T.ApplyFillEvent(w.db, events[0], decision).value);
                 X.Then([next], X.ApplyEvents(next, events[1..], decision))
  {
    hide T.ApplyFillEvent;
  }

  method ApplyReportedFills(
    store: Store, decision: nat, legs: seq<T.Leg>, side: C.Side, indexes: seq<nat>, reply: X.ReconcileReply)
    returns (r: Result<(), Error>)
    modifies store
    ensures Traced(old(store.View()), old(store.worlds), store.View(), store.worlds,
                   X.ApplyReports(old(store.View()), decision, legs, side, indexes, reply), r)
  {
    hide X.ApplyEvents, C.NormalizeOrderFills;
    ghost var was, wasWorlds, all := store.View(), store.worlds, X.ApplyReports(store.View(), decision, legs, side, indexes, reply);
    ghost var done: seq<World> := [];
    var todo := indexes;
    while todo != []
      invariant store.View() == X.At(was, done) && store.worlds == wasWorlds + done
      invariant all == X.Then(done, X.ApplyReports(store.View(), decision, legs, side, todo, reply))
      decreases |todo|
    {
      if todo[0] >= |legs| {
        return Err(T.UnknownLeg);
      }
      var orderId := X.OrderId(legs[todo[0]]);
      var history := X.ReportFor(reply, orderId).history;
      if history.Some? {
        if history.value.side != Some(side) {
          return Err(T.SideMismatch);
        }
        var events := C.NormalizeFills(C.HistoricalOrder(orderId, history.value.side, history.value.fills));
        if events.Err? {
          return Err(T.CapitalFailed(events.error));
        }
        ghost var w := store.View();
        ghost var head := X.ApplyEvents(w, events.value, decision);
        TracedMore(was, wasWorlds, done, head.worlds);
        var applied := ApplyOrderFills(store, events.value, decision);
        if applied.Err? {
          return applied;
        }
        ThenThen(done, head.worlds, X.ApplyReports(store.View(), decision, legs, side, todo[1..], reply));
        done := done + head.worlds;
      }
      todo := todo[1..];
    }
    return Ok(());
  }

  method MarkReported(store: Store, id: nat, side: C.Side, legs: seq<T.Leg>, statuses: map<nat, T.LegStatus>, first: nat, reply: X.ReconcileReply)
    returns (r: Result<(), Error>)
    modifies store
    ensures Traced(old(store.View()), old(store.worlds), store.View(), store.worlds,
                   if side.Sell? then X.MarkSellReported(old(store.View()), id, statuses, reply)
                   else X.MarkBuyReported(old(store.View()), id, legs, statuses, first, reply), r)
  {
    hide T.MarkSell, T.MarkBuy, T.PersistBuyProgress, X.PlannedIndexes;
    var values := statuses.Values;
    var error: Option<Error>;
    if side.Sell? {
      if values == {T.LegFilled} && !reply.positionsMatch {
        return Err(T.PositionsDiffer);
      }
      error := store.MarkSellReconciliationResult(id, statuses);
    } else if T.LegUnknown in values {
      error := store.PersistBuyProgress(id, statuses, T.ReconciliationRequired, T.BuyUnknown, T.ReconRequired);
    } else if T.LegFailed in values {
      error := store.PersistBuyProgress(id, statuses, T.Failed, T.BuyFailed, T.ExecFailed);
    } else if T.LegPartial in values {
      error := store.PersistBuyProgress(id, statuses, T.Active, T.BuyPartial, T.PartialFill);
    } else if values != {T.LegFilled} {
      error := store.PersistBuyProgress(id, statuses, T.Active, T.BuyStillPending, T.BuyPending);
    } else if !reply.positionsMatch {
      return Err(T.PositionsDiffer);
    } else if !T.CashOk(store.machine.account) {
      error := store.PersistBuyProgress(id, statuses, T.ReconciliationRequired, T.BuyCashBreach, T.ReconRequired);
      return Err(if error.Some? then error.value else T.CashBoundary);
    } else if X.PlannedIndexes(legs, C.Buy) != [] {
      error := store.PersistBuyProgress(id, statuses, T.Active, T.BuyLegFilled(first), T.BuyPending);
    } else {
      error := store.MarkBuyReconciliationResult(id, map i | i in T.Indexes(legs, C.Buy) :: T.LegFilled);
    }
    return Outcome(error);
  }

  method ReconcileCurrentPhase(store: Store, id: nat, reply: X.ReconcileReply) returns (r: Result<(), Error>)
    modifies store
    ensures Traced(old(store.View()), old(store.worlds), store.View(), store.worlds,
                   X.ReconcileCurrent(old(store.View()), id, reply), r)
  {
    hide X.ApplyReports, X.MarkSellReported, X.MarkBuyReported, X.SharedOrderId, X.MissingOrderId, X.ReportedStatuses,
      T.LegsOf, T.AnyAmbiguous, X.PlannedIndexes, X.SubmittedIndexes;
    if id !in store.workflows {
      return Err(T.UnknownWorkflow);
    }
    var w := store.workflows[id];
    if !w.status.Active? {
      return Err(T.PhaseNotReady);
    }
    if !w.phase.SellPhase? && !w.phase.BuyPhase? {
      return Err(T.PhaseNotReady);
    }
    var side := if w.phase.SellPhase? then C.Sell else C.Buy;
    var submitted := X.SubmittedIndexes(w.legs, side);
    if T.AnyAmbiguous(T.LegsOf(w.legs, side)) {
      return Err(T.SubmissionAmbiguous);
    }
    if side.Sell? && X.PlannedIndexes(w.legs, C.Sell) != [] {
      return Err(T.PhaseNotReady);
    }
    if submitted == [] {
      return Err(T.PhaseNotReady);
    }
    if X.MissingOrderId(w.legs, submitted) {
      return Err(T.SubmissionAmbiguous);
    }
    if !reply.readable {
      return Err(T.BrokerRaised);
    }
    ghost var was, wasWorlds := store.View(), store.worlds;
    ghost var fills := X.ApplyReports(was, w.plan.decision, w.legs, side, submitted, reply);
    var applied := ApplyReportedFills(store, w.plan.decision, w.legs, side, submitted, reply);
    if applied.Err? {
      return applied;
    }
    if X.SharedOrderId(w.legs, submitted) {
      return Err(T.NotCovered);
    }
    var statuses := X.ReportedStatuses(w.legs, side, reply);
    ghost var last := if side.Sell? then X.MarkSellReported(store.View(), id, statuses, reply)
                      else X.MarkBuyReported(store.View(), id, w.legs, statuses, submitted[0], reply);
    TracedMore(was, wasWorlds, fills.worlds, last.worlds);
    r := MarkReported(store, id, side, w.legs, statuses, submitted[0], reply);
  }

  /* ---- run_cycle ---- */

  method CommitControls(store: Store, cs: seq<T.Control>) returns (r: Result<(), Error>)
    modifies store
    ensures Traced(old(store.View()), old(store.worlds), store.View(), store.worlds, X.Controls(old(store.View()), cs), r)
  {
    hide T.ControlTransition, X.Controls;
    ghost var was, wasWorlds, all := store.View(), store.worlds, X.Controls(store.View(), cs);
    ghost var done: seq<World> := [];
    var todo := cs;
    while todo != []
      invariant store.View() == X.At(was, done) && store.worlds == wasWorlds + done
      invariant all == X.Then(done, X.Controls(store.View(), todo))
      decreases |todo|
    {
      ControlsFirst(store.View(), todo);
      assert done + [] == done;
      if !todo[0].key.ControlKey? {
        return Err(T.ControlRefused);
      }
      var error := store.TransitionState(todo[0]);
      if error.Some? {
        return Err(error.value);
      }
      ghost var next := store.View();
      TracedMore(was, wasWorlds, done, [next]);
      ThenThen(done, [next], X.Controls(next, todo[1..]));
      done := done + [next];
      todo := todo[1..];
    }
    ControlsFirst(store.View(), todo);
    assert done + [] == done;
    return Ok(());
  }

  lemma ControlsFirst(w: World, cs: seq<T.Control>)
    ensures X.Controls(w, cs) ==
            if cs == [] then X.Trace([], Ok(()))
            else if !cs[0].key.ControlKey? then X.Trace([], Err(T.ControlRefused))
            else if T.ControlTransition(w.db, cs[0]).Err? then X.Trace([], Err(T.ControlTransition(w.db, cs[0]).error))
            else var next := w.(db := T.ControlTransition(w.db, cs[0]).value);
                 X.Then([next], X.Controls(next, cs[1..]))
  {
    hide T.ControlTransition;
  }

  method PlanNewWork(store: Store, o: X.Oracle) returns (r: Result<(), Error>)
    modifies store
    ensures Traced(old(store.View()), old(store.worlds), store.View(), store.worlds, X.PlanNewWork(old(store.View()), o), r)
  {
    hide X.Controls, T.CreateWorkflow, T.StartWorkflow;
    ghost var was, wasWorlds := store.View(), store.worlds;
    ghost var prepared := X.Controls(was, o.prepare);
    var ready := CommitControls(store, o.prepare);
    if ready.Err? {
      return ready;
    }
    ghost var w1 := store.View();
    match o.plan {
      case PlanNothing =>
        return ready;
      case PlanCommit(decision, rebalance) =>
        var cs := X.ControlTarget(decision, rebalance, o.commit);
        TracedMore(was, wasWorlds, prepared.worlds, X.Controls(w1, cs).worlds);
        r := CommitControls(store, cs);
      case PlanOrders(plan, sells) =>
        var error := store.CreateWorkflow(plan, sells);
        if error.Some? {
          return Err(error.value);
        }
        ghost var w2 := store.View();
        TracedMore(was, wasWorlds, prepared.worlds, [w2]);
        ghost var started := X.Commit(w2, T.StartWorkflow(w2.db, T.Id(plan)));
        TracedMore(was, wasWorlds, prepared.worlds + [w2], started.worlds);
        error := store.StartWorkflow(T.Id(plan));
        r := Outcome(error);
    }
  }

  method Submit(store: Store, id: nat, o: X.Oracle) returns (r: Result<(), Error>)
    modifies store
    ensures Traced(old(store.View()), old(store.worlds), store.View(), store.worlds, X.Submission(old(store.View()), id, o), r)
  {
    hide X.SubmitCurrent;
    if !o.allowSubmit {
      return Ok(());
    }
    if !o.guardPasses {
      return Err(T.GuardRefused);
    }
    var submitted := SubmitCurrentPhase(store, id, o.pendingKnown, o.replies);
    return if submitted.Err? then Err(submitted.error) else Ok(());
  }

  // One invocation: finish a completed workflow's control rows, or classify and act.
  method RunCycle(store: Store, o: X.Oracle) returns (r: Result<(), Error>)
    modifies store
    ensures Traced(old(store.View()), old(store.worlds), store.View(), store.worlds, X.Cycle(old(store.View()), o), r)
  {
    hide X.Controls, X.Classify, X.PlanNewWork, X.Submission, X.ReconcileCurrent, T.StartWorkflow, T.InstallBuys, X.AwaitsControl;
    ghost var was, wasWorlds := store.View(), store.worlds;
    var awaiting := X.Awaiting(store.View().db);
    if |awaiting| > 1 {
      return Err(T.SeveralPending);
    }
    if |awaiting| == 1 {
      var plan := store.workflows[X.Only(awaiting)].plan;
      r := CommitControls(store, X.ControlTarget(plan.decision, plan.rebalance, o.finalize));
      return;
    }
    var classified := ClassifyRecovery(store, None);
    if classified.Err? {
      return Err(classified.error);
    }
    var d := classified.value;
    ghost var w1 := store.View();
    TracedMore(was, wasWorlds, [w1], X.Act(w1, d, o).worlds);
    if d.action.NoWorkflow? {
      r := PlanNewWork(store, o);
      return;
    }
    if d.workflow.None? {
      return Err(T.UnknownWorkflow);
    }
    var id := d.workflow.value;
    var error: Option<Error> := None;
    if d.action.StartAction? {
      error := store.StartWorkflow(id);
    } else if d.action.SubmitSell? || d.action.SubmitBuy? {
      r := Submit(store, id, o);
      return;
    } else if d.action.ReconcileSell? || d.action.ReconcileBuy? {
      r := ReconcileCurrentPhase(store, id, o.reconcile);
      return;
    } else if d.action.ReplanBuys? {
      if o.replan.None? {
        return Err(T.ReplanFailed);
      }
      error := store.InstallBuyLegs(id, o.replan.value);
    }
    return Outcome(error);
  }
}
