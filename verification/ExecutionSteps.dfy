// The single steps a cycle is made of: each one commits a transaction, or POSTs, from a
// world that allows it.
module ExecutionSteps {
  import opened Common
  import opened Capital
  import opened ExecutionTables
  import opened Executor

  datatype Kind =
    | Stay
    | Creating(plan: Plan, specs: seq<LegSpec>)
    | Starting(id: nat)
    | Intending(id: nat, i: nat)
    | Posting(id: nat, i: nat, side: Side)
    | Accepting(id: nat, i: nat, orderId: nat)
    | Requiring(id: nat)
    | MarkingSell(id: nat, statuses: map<nat, LegStatus>)
    | Installing(id: nat, specs: seq<LegSpec>)
    | Persisting(id: nat, statuses: map<nat, LegStatus>, status: WorkflowStatus, suffix: Suffix, to: ExecState)
    | MarkingBuy(id: nat)
    | Filling(id: nat, i: nat, event: FillEvent)
    | Controlling(c: Control)

  ghost predicate ActiveIn(db: Db, id: nat) {
    id in db.workflows && db.workflows[id].status.Active?
  }

  // Leg i of an ACTIVE workflow in the phase of its side.
  ghost predicate LegIn(db: Db, id: nat, i: nat) {
    && ActiveIn(db, id) && i < |db.workflows[id].legs|
    && PhaseOf(db.workflows[id].phase, db.workflows[id].legs[i].spec.side)
  }

  ghost predicate Unposted(w: World, id: nat, i: nat) {
    forall k :: 0 <= k < |w.posts| ==> w.posts[k].workflow != id || w.posts[k].leg != i
  }

  ghost predicate SettledOrPlanned(leg: Leg) {
    leg.status.LegFilled? || leg.status.Planned?
  }

  // The next leg to submit: planned, none planned before it; a buy only with every other leg
  // filled or planned, and cash on hand.
  ghost predicate NextToSubmit(db: Db, id: nat, i: nat) {
    && LegIn(db, id, i)
    && var legs := db.workflows[id].legs;
       && legs[i].status.Planned?
       && (forall j :: 0 <= j < i ==> !legs[j].status.Planned?)
       && (legs[i].spec.side.Buy? ==>
             (forall j :: 0 <= j < |legs| ==> SettledOrPlanned(legs[j])) && CashOk(db.machine.account))
  }

  // Every submitted leg of the phase has a status from the broker, and no other leg has one.
  ghost predicate Covers(w: Workflow, side: Side, statuses: map<nat, LegStatus>) {
    && statuses.Values <= RECONCILED
    && (forall i: nat :: i in statuses <==> i < |w.legs| && w.legs[i].spec.side == side && !w.legs[i].status.Planned?)
    && (forall i: nat :: i in statuses && i < |w.legs| ==> w.legs[i].orderId.Some?)
  }

  ghost predicate BuyProgress(db: Db, id: nat, statuses: map<nat, LegStatus>, status: WorkflowStatus, suffix: Suffix, to: ExecState) {
    && ActiveIn(db, id) && db.workflows[id].phase.BuyPhase?
    && Covers(db.workflows[id], Buy, statuses) && statuses.Keys != {}
    && match status
       case Active =>
         && LegUnknown !in statuses.Values && LegFailed !in statuses.Values
         && (|| (suffix == BuyPartial && to == PartialFill && LegPartial in statuses.Values)
             || (suffix == BuyStillPending && to == BuyPending && statuses.Values != {LegFilled})
             || (suffix.BuyLegFilled? && to == BuyPending && statuses.Values == {LegFilled} && CashOk(db.machine.account)
                 && exists i :: 0 <= i < |db.workflows[id].legs| && db.workflows[id].legs[i].status.Planned?))
       case Failed => suffix == BuyFailed && to == ExecFailed
       case ReconciliationRequired => suffix in {BuyUnknown, BuyCashBreach} && to == ReconRequired
       case Complete => false
  }

  ghost predicate Takes(w: World, next: World, k: Kind) {
    match k
    case Stay => next == w
    case Creating(plan, specs) =>
      next.posts == w.posts && CreateWorkflow(w.db, plan, specs) == Ok(next.db) && NonComplete(w.db) == {} && Awaiting(w.db) == {}
    case Starting(id) => next.posts == w.posts && StartWorkflow(w.db, id) == Ok(next.db)
    case Intending(id, i) =>
      next.posts == w.posts && NextToSubmit(w.db, id, i) && RecordIntent(w.db, id, i) == Ok(next.db)
    case Posting(id, i, side) =>
      && next == w.(posts := w.posts + [Post(id, i, side)])
      && LegIn(w.db, id, i) && Ambiguous(w.db.workflows[id].legs[i]) && w.db.workflows[id].legs[i].spec.side == side
      && Unposted(w, id, i)
      && (side.Buy? ==> forall j :: 0 <= j < |w.db.workflows[id].legs| && j != i ==> SettledOrPlanned(w.db.workflows[id].legs[j]))
    case Accepting(id, i, orderId) =>
      && next.posts == w.posts && LegIn(w.db, id, i) && Ambiguous(w.db.workflows[id].legs[i])
      && RecordAcceptance(w.db, id, i, orderId) == Ok(next.db)
    case Requiring(id) => next.posts == w.posts && RequireReconciliation(w.db, id).Ok? && RequireReconciliation(w.db, id).value.0 == next.db
    case MarkingSell(id, statuses) => next.posts == w.posts && MarkSell(w.db, id, statuses) == Ok(next.db)
    case Installing(id, specs) => next.posts == w.posts && InstallBuys(w.db, id, specs) == Ok(next.db)
    case Persisting(id, statuses, status, suffix, to) =>
      && next.posts == w.posts && BuyProgress(w.db, id, statuses, status, suffix, to)
      && PersistBuyProgress(w.db, id, statuses, status, suffix, to) == Ok(next.db)
    case MarkingBuy(id) =>
      && next.posts == w.posts && id in w.db.workflows && CashOk(w.db.machine.account)
      && MarkBuy(w.db, id, map i | i in Indexes(w.db.workflows[id].legs, Buy) :: LegFilled) == Ok(next.db)
    case Filling(id, i, event) =>
      && next.posts == w.posts && LegIn(w.db, id, i)
      && var leg := w.db.workflows[id].legs[i];
         && leg.orderId == Some(event.key.orderId) && event.side == leg.spec.side
         && (event.side.Buy? ==> event.delta <= 0) && (event.side.Sell? ==> event.delta >= 0)
         && (event.side.Buy? ==> exists j :: 0 <= j < |w.db.workflows[id].legs| && InFlight(w.db.workflows[id].legs[j]))
         && ApplyFillEvent(w.db, event, w.db.workflows[id].plan.decision) == Ok(next.db)
    case Controlling(c) => next.posts == w.posts && c.key.ControlKey? && ControlTransition(w.db, c) == Ok(next.db)
  }

  ghost predicate Allowed(w: World, next: World) {
    exists k: Kind :: Takes(w, next, k)
  }

  // A trace made of allowed steps.
  ghost predicate Steps(w: World, worlds: seq<World>)
    decreases |worlds|
  {
    worlds != [] ==> Allowed(w, worlds[0]) && Steps(worlds[0], worlds[1..])
  }

  lemma StepsOne(w: World, next: World, k: Kind)
    requires Takes(w, next, k)
    ensures Steps(w, [next])
  {
    assert Allowed(w, next);
  }

  lemma {:induction false} StepsThen(w: World, a: seq<World>, b: seq<World>)
    requires Steps(w, a) && Steps(At(w, a), b)
    ensures Steps(w, a + b)
    decreases |a|
  {
    if a == [] {
      assert a + b == b;
    } else {
      assert (a + b)[0] == a[0] && (a + b)[1..] == a[1..] + b;
      StepsThen(a[0], a[1..], b);
    }
  }

  lemma {:induction false} StepsPrefix(w: World, a: seq<World>, k: nat)
    requires Steps(w, a) && k <= |a|
    ensures Steps(w, a[..k])
    decreases |a|
  {
    if k > 0 {
      StepsPrefix(a[0], a[1..], k - 1);
      assert a[..k][1..] == a[1..][..k - 1];
    }
  }
}
