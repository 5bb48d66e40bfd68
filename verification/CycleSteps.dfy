// Every cycle, with any answers from outside, is a sequence of allowed steps.
module CycleSteps {
  import opened Common
  import opened Capital
  import opened ExecutionTables
  import opened Executor
  import opened ExecutionSteps
  import opened ExecutionInvariant
  import opened ExecutionKeeps
  import opened PostOrder

  ghost predicate Good(w: World) {
    Inv(w.db) && PostsOk(w)
  }

  lemma StepsKeepGood(w: World, worlds: seq<World>)
    requires Good(w) && Steps(w, worlds)
    ensures Good(At(w, worlds))
  {
    StepsKeepPosts(w, worlds);
  }

  lemma CommitSteps(w: World, r: Result<Db, ExecError>, k: Kind)
    requires r.Ok? ==> Takes(w, w.(db := r.value), k)
    ensures Steps(w, Commit(w, r).worlds)
  {
    hide Takes;
    if r.Ok? {
      StepsOne(w, w.(db := r.value), k);
    }
  }

  lemma {:induction false} ControlsSteps(w: World, cs: seq<Control>)
    ensures Steps(w, Controls(w, cs).worlds)
    ensures At(w, Controls(w, cs).worlds).db.workflows == w.db.workflows
    ensures Awaiting(At(w, Controls(w, cs).worlds).db) <= Awaiting(w.db)
    decreases |cs|
  {
    hide Takes, AwaitsControl;
    if cs != [] && cs[0].key.ControlKey? && ControlTransition(w.db, cs[0]).Ok? {
      var next := w.(db := ControlTransition(w.db, cs[0]).value);
      ControlsSteps(next, cs[1..]);
      ControlTakes(w, next, cs[0]);
      StepsOne(w, next, Controlling(cs[0]));
      StepsThen(w, [next], Controls(next, cs[1..]).worlds);
      ControlShrinks(w, next, cs[0]);
    }
  }

  lemma ControlTakes(w: World, next: World, c: Control)
    requires c.key.ControlKey? && ControlTransition(w.db, c).Ok? && next == w.(db := ControlTransition(w.db, c).value)
    ensures Takes(w, next, Controlling(c))
  {
  }

  lemma ControlShrinks(w: World, next: World, c: Control)
    requires c.key.ControlKey? && ControlTransition(w.db, c).Ok? && next == w.(db := ControlTransition(w.db, c).value)
    ensures next.db.workflows == w.db.workflows && Awaiting(next.db) <= Awaiting(w.db)
  {
    hide FindRow;
    forall id | id in Awaiting(next.db) ensures id in Awaiting(w.db) {
      AwaitingShrinks(w.db, next.db, id);
    }
  }

  /* ---- Submission ---- */

  lemma {:induction false} PlannedIndexesAre(legs: seq<Leg>, side: Side)
    ensures var p := PlannedIndexes(legs, side);
            && (forall i: nat :: i in p <==> i < |legs| && legs[i].spec.side == side && legs[i].status.Planned?)
            && (forall i, j :: 0 <= i < j < |p| ==> p[i] < p[j])
  {
    if legs != [] {
      var front := DropLast(legs);
      PlannedIndexesAre(front, side);
      var p, q := PlannedIndexes(front, side), PlannedIndexes(legs, side);
      assert forall i :: 0 <= i < |p| ==> p[i] in p;
      forall i: nat ensures i in q <==> i < |legs| && legs[i].spec.side == side && legs[i].status.Planned? {
        if i < |front| {
          assert front[i] == legs[i];
        }
      }
    }
  }

  // The legs about to go out: rising, planned, with no other planned leg before one of them.
  ghost predicate Outgoing(w: Workflow, side: Side, candidates: seq<nat>) {
    && PhaseOf(w.phase, side)
    && (forall k :: 0 <= k < |candidates| ==>
          candidates[k] < |w.legs| && w.legs[candidates[k]].spec.side == side && w.legs[candidates[k]].status.Planned?)
    && (forall k, m :: 0 <= k < m < |candidates| ==> candidates[k] < candidates[m])
    && (forall k, j :: 0 <= k < |candidates| && 0 <= j < candidates[k] && w.legs[j].status.Planned? ==> j in candidates)
  }

  ghost predicate AloneInFlight(db: Db, w: Workflow, side: Side, candidates: seq<nat>) {
    side.Buy? ==> |candidates| <= 1 &&
                  (candidates != [] ==> CashOk(db.machine.account) && forall j :: 0 <= j < |w.legs| ==> SettledOrPlanned(w.legs[j]))
  }

  // The first POST: its intent is durable before it, its acceptance after it.
  lemma FirstPost(w: World, id: nat, side: Side, candidates: seq<nat>) returns (w1: World, w2: World)
    requires Good(w) && ActiveIn(w.db, id) && candidates != []
    requires Outgoing(w.db.workflows[id], side, candidates)
    requires AloneInFlight(w.db, w.db.workflows[id], side, candidates)
    ensures RecordIntent(w.db, id, candidates[0]) == Ok(w1.db) && w1.posts == w.posts
    ensures w2 == w1.(posts := w.posts + [Post(id, candidates[0], side)])
    ensures Takes(w, w1, Intending(id, candidates[0])) && Takes(w1, w2, Posting(id, candidates[0], side))
    ensures Steps(w, [w1, w2]) && Good(w2)
    ensures ActiveIn(w2.db, id) && candidates[0] < |w.db.workflows[id].legs|
    ensures var wf, i := w.db.workflows[id], candidates[0];
            w2.db.workflows[id] == wf.(legs := wf.legs[i := wf.legs[i].(status := IntentRecorded)])
    ensures LegIn(w2.db, id, candidates[0]) && Ambiguous(w2.db.workflows[id].legs[candidates[0]])
  {
    hide AwaitsControl, KeysOk, Alone, Fits, Steps, MoveAndCommit;
    var wf, i := w.db.workflows[id], candidates[0];
    PlanIs(w.db, id);
    assert LegOk(wf.legs[i]);
    forall j | 0 <= j < i ensures !wf.legs[j].status.Planned? {
      if wf.legs[j].status.Planned? {
        var m :| 0 <= m < |candidates| && candidates[m] == j;
      }
    }
    assert NextToSubmit(w.db, id, i);
    w1 := w.(db := RecordIntent(w.db, id, i).value);
    w2 := w1.(posts := w.posts + [Post(id, i, side)]);
    forall k | 0 <= k < |w.posts| ensures w.posts[k].workflow != id || w.posts[k].leg != i {
      assert PostFits(w.db, w.posts[k]);
    }
    TwoSteps(w, w1, Intending(id, i), w2, Posting(id, i, side));
    StepsKeepGood(w, [w1, w2]);
  }

  lemma TwoSteps(w: World, a: World, k: Kind, b: World, m: Kind)
    requires Takes(w, a, k) && Takes(a, b, m)
    ensures Steps(w, [a, b])
  {
    hide Takes;
    StepsOne(a, b, m);
    assert Allowed(w, a);
    assert [a, b][1..] == [b];
  }

  lemma ThenStep(w: World, worlds: seq<World>, next: World, k: Kind)
    requires Steps(w, worlds) && Takes(At(w, worlds), next, k)
    ensures Steps(w, worlds + [next])
  {
    hide Takes;
    StepsOne(At(w, worlds), next, k);
    StepsThen(w, worlds, [next]);
  }

  lemma {:induction false} SubmitLegsSteps(w: World, id: nat, side: Side, candidates: seq<nat>, replies: seq<PostReply>)
    requires Good(w) && ActiveIn(w.db, id)
    requires Outgoing(w.db.workflows[id], side, candidates)
    requires AloneInFlight(w.db, w.db.workflows[id], side, candidates)
    ensures Steps(w, SubmitLegs(w, id, side, candidates, replies).worlds)
    decreases |candidates|
  {
    hide Good, Takes, Steps, Ambiguous, RequireReconciliation;
    StepsNone(w);
    if candidates != [] {
      var i := candidates[0];
      var w1, w2 := FirstPost(w, id, side, candidates);
      var reply := if replies == [] then Raised else replies[0];
      if reply.Accepted? {
        if RecordAcceptance(w2.db, id, i, reply.orderId).Ok? {
          var w3 := w2.(db := RecordAcceptance(w2.db, id, i, reply.orderId).value);
          AcceptTakes(w2, w3, id, i, reply.orderId);
          ThenStep(w, [w1, w2], w3, Accepting(id, i, reply.orderId));
          assert [w1, w2] + [w3] == [w1, w2, w3];
          StepsKeepGood(w, [w1, w2, w3]);
          RestGoes(w, w3, id, side, candidates);
          SubmitLegsSteps(w3, id, side, candidates[1..], replies[1..]);
          StepsThen(w, [w1, w2, w3], SubmitLegs(w3, id, side, candidates[1..], replies[1..]).worlds);
        }
      } else if RequireReconciliation(w2.db, id).Ok? {
        var w3 := w2.(db := RequireReconciliation(w2.db, id).value.0);
        RequireTakes(w2, w3, id);
        ThenStep(w, [w1, w2], w3, Requiring(id));
        assert [w1, w2] + [w3] == [w1, w2, w3];
      }
    }
  }

  lemma AcceptTakes(w: World, next: World, id: nat, i: nat, orderId: nat)
    requires LegIn(w.db, id, i) && Ambiguous(w.db.workflows[id].legs[i])
    requires RecordAcceptance(w.db, id, i, orderId) == Ok(next.db) && next.posts == w.posts
    ensures Takes(w, next, Accepting(id, i, orderId))
  {
  }

  lemma RequireTakes(w: World, next: World, id: nat)
    requires RequireReconciliation(w.db, id).Ok? && next == w.(db := RequireReconciliation(w.db, id).value.0)
    ensures Takes(w, next, Requiring(id))
  {
  }

  // The other candidates are as they were.
  lemma RestGoes(w: World, w3: World, id: nat, side: Side, candidates: seq<nat>)
    requires ActiveIn(w.db, id) && candidates != [] && Outgoing(w.db.workflows[id], side, candidates)
    requires AloneInFlight(w.db, w.db.workflows[id], side, candidates)
    requires ActiveIn(w3.db, id) && w3.db.workflows[id].phase == w.db.workflows[id].phase
    requires var legs, legs3, i := w.db.workflows[id].legs, w3.db.workflows[id].legs, candidates[0];
             && |legs3| == |legs| && (forall j :: 0 <= j < |legs| && j != i ==> legs3[j] == legs[j])
             && !legs3[i].status.Planned?
    ensures Outgoing(w3.db.workflows[id], side, candidates[1..])
    ensures AloneInFlight(w3.db, w3.db.workflows[id], side, candidates[1..])
  {
    var legs, legs3, rest := w.db.workflows[id].legs, w3.db.workflows[id].legs, candidates[1..];
    assert forall k :: 0 <= k < |rest| ==> rest[k] == candidates[k + 1] && candidates[0] < rest[k];
    forall k, j | 0 <= k < |rest| && 0 <= j < rest[k] && legs3[j].status.Planned? ensures j in rest {
      assert legs[j].status.Planned? && j in candidates;
      var m :| 0 <= m < |candidates| && candidates[m] == j;
      assert m > 0 && rest[m - 1] == j;
    }
  }

  lemma BuyGoes(db: Db, id: nat)
    requires Inv(db) && ActiveIn(db, id) && db.workflows[id].phase.BuyPhase? && BuyCandidates(db, db.workflows[id].legs).Ok?
    ensures Outgoing(db.workflows[id], Buy, BuyCandidates(db, db.workflows[id].legs).value)
    ensures AloneInFlight(db, db.workflows[id], Buy, BuyCandidates(db, db.workflows[id].legs).value)
  {
    hide AwaitsControl, KeysOk, Alone, LegsOk;
    var w := db.workflows[id];
    PlanIs(db, id);
    PlannedIndexesAre(w.legs, Buy);
    forall j | 0 <= j < |w.legs| ensures SettledOrPlanned(w.legs[j]) {
      LegsOfMember(w.legs, Buy, w.legs[j]);
      if w.legs[j].spec.side.Buy? {
        BuyQuiet(LegsOf(w.legs, Buy), w.legs[j]);
      }
    }
    var planned := PlannedIndexes(w.legs, Buy);
    assert planned[0] in planned;
    forall j | 0 <= j < |w.legs| && w.legs[j].status.Planned? ensures planned[0] <= j {
      assert w.legs[j].spec.side.Buy? && j in planned;
      var m :| 0 <= m < |planned| && planned[m] == j;
    }
  }

  // With nothing bad and nothing in flight, a buy leg is filled or planned.
  lemma BuyQuiet(buys: seq<Leg>, leg: Leg)
    requires leg in buys && !SomeStatus(buys, LegUnknown) && !SomeStatus(buys, LegFailed)
    requires !SomeStatus(buys, IntentRecorded) && !AnyInFlight(buys)
    ensures SettledOrPlanned(leg)
  {
    var k :| 0 <= k < |buys| && buys[k] == leg;
    assert buys[k].status != LegUnknown && buys[k].status != LegFailed && buys[k].status != IntentRecorded;
    assert !InFlight(buys[k]);
  }

  lemma SellGoes(db: Db, id: nat)
    requires Inv(db) && ActiveIn(db, id) && db.workflows[id].phase.SellPhase?
    ensures Outgoing(db.workflows[id], Sell, PlannedIndexes(db.workflows[id].legs, Sell))
  {
    hide AwaitsControl, KeysOk, Alone, LegsOk;
    var w := db.workflows[id];
    PlanIs(db, id);
    PlannedIndexesAre(w.legs, Sell);
    var planned := PlannedIndexes(w.legs, Sell);
    forall k | 0 <= k < |planned| ensures planned[k] < |w.legs| && w.legs[planned[k]].spec.side.Sell? && w.legs[planned[k]].status.Planned? {
      assert planned[k] in planned;
    }
  }

  lemma SubmitCurrentSteps(w: World, id: nat, pendingKnown: bool, replies: seq<PostReply>)
    requires Good(w)
    ensures Steps(w, SubmitCurrent(w, id, pendingKnown, replies).worlds)
  {
    hide Inv, PostsOk, Takes, Steps, RequireReconciliation, SubmitLegs, BuyCandidates, Outgoing, AloneInFlight;
    StepsNone(w);
    if ActiveIn(w.db, id) && (w.db.workflows[id].phase.SellPhase? || w.db.workflows[id].phase.BuyPhase?) {
      var wf := w.db.workflows[id];
      var side := if wf.phase.SellPhase? then Sell else Buy;
      if AnyAmbiguous(LegsOf(wf.legs, side)) {
        if RequireReconciliation(w.db, id).Ok? {
          var next := w.(db := RequireReconciliation(w.db, id).value.0);
          RequireTakes(w, next, id);
          StepsOne(w, next, Requiring(id));
        }
      } else if side.Sell? {
        SellGoes(w.db, id);
        SellAlone(w.db, wf, PlannedIndexes(wf.legs, Sell));
        SubmitLegsSteps(w, id, Sell, PlannedIndexes(wf.legs, Sell), replies);
      } else if BuyCandidates(w.db, wf.legs).Ok? {
        BuyGoes(w.db, id);
        SubmitLegsSteps(w, id, Buy, BuyCandidates(w.db, wf.legs).value, replies);
      }
    }
  }

  lemma SellAlone(db: Db, w: Workflow, candidates: seq<nat>)
    ensures AloneInFlight(db, w, Sell, candidates)
  {
  }

  lemma StepsNone(w: World)
    ensures Steps(w, [])
  {
  }

  /* ---- Reconciliation ---- */

  lemma {:induction false} SubmittedIndexesAre(legs: seq<Leg>, side: Side)
    ensures var p := SubmittedIndexes(legs, side);
            forall i: nat :: i in p <==> i < |legs| && legs[i].spec.side == side && !legs[i].status.Planned?
  {
    if legs != [] {
      var front := DropLast(legs);
      SubmittedIndexesAre(front, side);
      forall i: nat ensures i in SubmittedIndexes(legs, side) <==> i < |legs| && legs[i].spec.side == side && !legs[i].status.Planned? {
        if i < |front| {
          assert front[i] == legs[i];
        }
      }
    }
  }

  // Leg i of the reconciled phase; a buy phase has something in flight.
  ghost predicate Fillable(db: Db, id: nat, i: nat) {
    && LegIn(db, id, i) && db.workflows[id].legs[i].orderId.Some?
    && (db.workflows[id].legs[i].spec.side.Buy? ==>
          exists j :: 0 <= j < |db.workflows[id].legs| && InFlight(db.workflows[id].legs[j]))
  }

  ghost predicate EventsFit(leg: Leg, events: seq<FillEvent>) {
    forall k :: 0 <= k < |events| ==>
      && leg.orderId == Some(events[k].key.orderId) && events[k].side == leg.spec.side
      && (events[k].side.Buy? ==> events[k].delta <= 0) && (events[k].side.Sell? ==> events[k].delta >= 0)
  }

  lemma {:induction false} ApplyEventsSteps(w: World, id: nat, i: nat, events: seq<FillEvent>)
    requires Fillable(w.db, id, i) && EventsFit(w.db.workflows[id].legs[i], events)
    ensures var t := ApplyEvents(w, events, w.db.workflows[id].plan.decision);
            Steps(w, t.worlds) && At(w, t.worlds).db.workflows == w.db.workflows
    decreases |events|
  {
    hide FindFill, Steps;
    StepsNone(w);
    var decision := w.db.workflows[id].plan.decision;
    if events != [] && ApplyFillEvent(w.db, events[0], decision).Ok? {
      var next := w.(db := ApplyFillEvent(w.db, events[0], decision).value);
      assert Takes(w, next, Filling(id, i, events[0]));
      StepsOne(w, next, Filling(id, i, events[0]));
      ApplyEventsSteps(next, id, i, events[1..]);
      StepsThen(w, [next], ApplyEvents(next, events[1..], decision).worlds);
    }
  }

  lemma {:induction false} ApplyReportsSteps(w: World, id: nat, side: Side, indexes: seq<nat>, reply: ReconcileReply)
    requires id in w.db.workflows
    requires forall k :: 0 <= k < |indexes| ==> Fillable(w.db, id, indexes[k]) && w.db.workflows[id].legs[indexes[k]].spec.side == side
    ensures var wf := w.db.workflows[id];
            var t := ApplyReports(w, wf.plan.decision, wf.legs, side, indexes, reply);
            Steps(w, t.worlds) && At(w, t.worlds).db.workflows == w.db.workflows
    decreases |indexes|
  {
    hide Steps, ApplyEvents, NormalizeOrderFills;
    StepsNone(w);
    var wf := w.db.workflows[id];
    if indexes != [] {
      var i := indexes[0];
      assert Fillable(w.db, id, i);
      var leg := wf.legs[i];
      var orderId := OrderId(leg);
      match ReportFor(reply, orderId).history
      case None => ApplyReportsSteps(w, id, side, indexes[1..], reply);
      case Some(history) =>
        var order := HistoricalOrder(orderId, history.side, history.fills);
        if history.side == Some(side) && NormalizeOrderFills(order).Ok? {
          EventSigns(order);
          var events := NormalizeOrderFills(order).value;
          assert EventsFit(leg, events);
          ApplyEventsSteps(w, id, i, events);
          var head := ApplyEvents(w, events, wf.plan.decision);
          if head.outcome.Ok? {
            var next := At(w, head.worlds);
            ApplyReportsSteps(next, id, side, indexes[1..], reply);
            StepsThen(w, head.worlds, ApplyReports(next, wf.plan.decision, wf.legs, side, indexes[1..], reply).worlds);
            EndThen(w, head.worlds, ApplyReports(next, wf.plan.decision, wf.legs, side, indexes[1..], reply).worlds);
          }
        }
    }
  }

  lemma EndThen(w: World, a: seq<World>, b: seq<World>)
    ensures At(w, a + b) == At(At(w, a), b)
  {
    if b == [] {
      assert a + b == a;
    }
  }

  // The statuses cover exactly the submitted legs of the side.
  lemma ReportedCover(wf: Workflow, side: Side, reply: ReconcileReply)
    requires forall i :: 0 <= i < |wf.legs| && wf.legs[i].spec.side == side && !wf.legs[i].status.Planned? ==> wf.legs[i].orderId.Some?
    ensures Covers(wf, side, ReportedStatuses(wf.legs, side, reply))
  {
  }

  lemma MarkBuySteps(w: World, id: nat, first: nat, reply: ReconcileReply)
    requires Good(w) && ActiveIn(w.db, id) && w.db.workflows[id].phase.BuyPhase?
    requires Covers(w.db.workflows[id], Buy, ReportedStatuses(w.db.workflows[id].legs, Buy, reply))
    requires ReportedStatuses(w.db.workflows[id].legs, Buy, reply).Keys != {}
    ensures var legs := w.db.workflows[id].legs;
            Steps(w, MarkBuyReported(w, id, legs, ReportedStatuses(legs, Buy, reply), first, reply).worlds)
  {
    hide Good, Steps, Covers, ReportedStatuses, PersistBuyProgress, MarkBuy, Commit;
    StepsNone(w);
    var legs := w.db.workflows[id].legs;
    var statuses := ReportedStatuses(legs, Buy, reply);
    var values := statuses.Values;
    if LegUnknown in values {
      ProgressSteps(w, id, statuses, ReconciliationRequired, BuyUnknown, ReconRequired);
    } else if LegFailed in values {
      ProgressSteps(w, id, statuses, Failed, BuyFailed, ExecFailed);
    } else if LegPartial in values {
      ProgressSteps(w, id, statuses, Active, BuyPartial, PartialFill);
    } else if values != {LegFilled} {
      ProgressSteps(w, id, statuses, Active, BuyStillPending, BuyPending);
    } else if !CashOk(w.db.machine.account) {
      ProgressSteps(w, id, statuses, ReconciliationRequired, BuyCashBreach, ReconRequired);
    } else if PlannedIndexes(legs, Buy) != [] {
      PlannedIndexesAre(legs, Buy);
      assert PlannedIndexes(legs, Buy)[0] in PlannedIndexes(legs, Buy);
      ProgressSteps(w, id, statuses, Active, BuyLegFilled(first), BuyPending);
    } else {
      var r := MarkBuy(w.db, id, map i | i in Indexes(legs, Buy) :: LegFilled);
      MarkBuyTakes(w, id);
      CommitSteps(w, r, MarkingBuy(id));
    }
  }

  lemma MarkBuyTakes(w: World, id: nat)
    requires id in w.db.workflows && CashOk(w.db.machine.account)
    ensures var r := MarkBuy(w.db, id, map i | i in Indexes(w.db.workflows[id].legs, Buy) :: LegFilled);
            r.Ok? ==> Takes(w, w.(db := r.value), MarkingBuy(id))
  {
    hide MarkBuy;
  }

  lemma ProgressSteps(w: World, id: nat, statuses: map<nat, LegStatus>, status: WorkflowStatus, suffix: Suffix, to: ExecState)
    requires BuyProgress(w.db, id, statuses, status, suffix, to)
    ensures Steps(w, Commit(w, PersistBuyProgress(w.db, id, statuses, status, suffix, to)).worlds)
  {
    hide BuyProgress, PersistBuyProgress, Steps;
    CommitSteps(w, PersistBuyProgress(w.db, id, statuses, status, suffix, to), Persisting(id, statuses, status, suffix, to));
  }

  lemma MarkSellSteps(w: World, id: nat, statuses: map<nat, LegStatus>, reply: ReconcileReply)
    ensures Steps(w, MarkSellReported(w, id, statuses, reply).worlds)
  {
    hide MarkSell, Steps, Takes;
    StepsNone(w);
    MarkSellTakes(w, id, statuses);
    CommitSteps(w, MarkSell(w.db, id, statuses), MarkingSell(id, statuses));
  }

  lemma MarkSellTakes(w: World, id: nat, statuses: map<nat, LegStatus>)
    ensures MarkSell(w.db, id, statuses).Ok? ==>
              Takes(w, w.(db := MarkSell(w.db, id, statuses).value), MarkingSell(id, statuses))
  {
    hide MarkSell;
  }

  // A buy phase is reconciled only when something is in flight.
  ghost predicate Reconciles(db: Db, id: nat) {
    ActiveIn(db, id) && db.workflows[id].phase.BuyPhase? ==>
      exists j :: 0 <= j < |db.workflows[id].legs| && InFlight(db.workflows[id].legs[j])
  }

  lemma ReconcileSteps(w: World, id: nat, reply: ReconcileReply)
    requires Good(w) && Reconciles(w.db, id)
    ensures Steps(w, ReconcileCurrent(w, id, reply).worlds)
  {
    hide Inv, PostsOk, Steps, ApplyReports, ReportedStatuses, MarkSellReported, MarkBuyReported, Takes, SharedOrderId, MissingOrderId;
    StepsNone(w);
    if ActiveIn(w.db, id) && (w.db.workflows[id].phase.SellPhase? || w.db.workflows[id].phase.BuyPhase?) {
      var wf := w.db.workflows[id];
      var side := if wf.phase.SellPhase? then Sell else Buy;
      var submitted := SubmittedIndexes(wf.legs, side);
      if submitted != [] && !MissingOrderId(wf.legs, submitted) {
        SubmittedFillable(w.db, id, side);
        ApplyReportsSteps(w, id, side, submitted, reply);
        var fills := ApplyReports(w, wf.plan.decision, wf.legs, side, submitted, reply);
        if fills.outcome.Ok? {
          var w1 := At(w, fills.worlds);
          StepsKeepGood(w, fills.worlds);
          var statuses := ReportedStatuses(wf.legs, side, reply);
          if side.Sell? {
            MarkSellSteps(w1, id, statuses, reply);
            StepsThen(w, fills.worlds, MarkSellReported(w1, id, statuses, reply).worlds);
          } else {
            ReportedCover(wf, Buy, reply);
            SomeReported(wf, Buy, reply);
            MarkBuySteps(w1, id, submitted[0], reply);
            StepsThen(w, fills.worlds, MarkBuyReported(w1, id, wf.legs, statuses, submitted[0], reply).worlds);
          }
        }
      }
    }
  }

  lemma SubmittedFillable(db: Db, id: nat, side: Side)
    requires ActiveIn(db, id) && PhaseOf(db.workflows[id].phase, side) && Reconciles(db, id)
    requires !MissingOrderId(db.workflows[id].legs, SubmittedIndexes(db.workflows[id].legs, side))
    ensures var legs := db.workflows[id].legs; var submitted := SubmittedIndexes(legs, side);
            && (forall k :: 0 <= k < |submitted| ==> Fillable(db, id, submitted[k]) && legs[submitted[k]].spec.side == side)
            && (forall i :: 0 <= i < |legs| && legs[i].spec.side == side && !legs[i].status.Planned? ==> legs[i].orderId.Some?)
  {
    var legs := db.workflows[id].legs;
    var submitted := SubmittedIndexes(legs, side);
    SubmittedIndexesAre(legs, side);
    forall k | 0 <= k < |submitted| ensures Fillable(db, id, submitted[k]) && legs[submitted[k]].spec.side == side {
      assert submitted[k] in submitted;
    }
    forall i | 0 <= i < |legs| && legs[i].spec.side == side && !legs[i].status.Planned? ensures legs[i].orderId.Some? {
      assert i in submitted;
      var k :| 0 <= k < |submitted| && submitted[k] == i;
    }
  }

  lemma SomeReported(wf: Workflow, side: Side, reply: ReconcileReply)
    requires SubmittedIndexes(wf.legs, side) != []
    ensures ReportedStatuses(wf.legs, side, reply).Keys != {}
  {
    SubmittedIndexesAre(wf.legs, side);
    var i := SubmittedIndexes(wf.legs, side)[0];
    assert i in SubmittedIndexes(wf.legs, side);
    assert i in ReportedStatuses(wf.legs, side, reply);
  }
}
