// POSTs one by one: each follows its own durable intent, and a BUY goes out only when every
// other leg of the workflow is filled or not yet submitted.
module BuySequence {
  import opened Common
  import opened Capital
  import opened ExecutionTables
  import opened Executor
  import opened ExecutionSteps
  import opened ExecutionInvariant
  import opened ExecutionKeeps
  import opened ExecutionEffects
  import opened PostOrder
  import opened CycleSteps
  import opened CycleRuns

  // What holds when a POST goes out.
  ghost predicate PostedSafely(w: World, next: World) {
    next.posts == w.posts ||
    exists id: nat, i: nat, side: Side ::
      && next == w.(posts := w.posts + [Post(id, i, side)])
      && LegIn(w.db, id, i) && w.db.workflows[id].legs[i].spec.side == side
      && Ambiguous(w.db.workflows[id].legs[i])
      && Unposted(w, id, i)
      && (side.Buy? ==> forall j :: 0 <= j < |w.db.workflows[id].legs| && j != i ==> SettledOrPlanned(w.db.workflows[id].legs[j]))
  }

  lemma StepPostsSafely(w: World, next: World, k: Kind)
    requires Takes(w, next, k)
    ensures PostedSafely(w, next)
  {
    if k.Posting? {
      assert next == w.(posts := w.posts + [Post(k.id, k.i, k.side)]);
    } else {
      SamePosts(w, next, k);
    }
  }

  // The world before step i of a trace.
  function Before(w: World, worlds: seq<World>, i: nat): World
    requires i < |worlds|
  {
    if i == 0 then w else worlds[i - 1]
  }

  lemma {:induction false} StepAt(w: World, worlds: seq<World>, i: nat) returns (k: Kind)
    requires Steps(w, worlds) && i < |worlds|
    ensures Takes(Before(w, worlds, i), worlds[i], k)
    decreases |worlds|
  {
    hide Takes;
    if i == 0 {
      k :| Takes(w, worlds[0], k);
    } else {
      k := StepAt(worlds[0], worlds[1..], i - 1);
    }
  }

  // Every POST of every run.
  lemma EveryPost(start: World, steps: seq<CycleStep>, o: Oracle, i: nat)
    requires FreshStart(start) && i < |Cycle(RunCycles(start, steps), o).worlds|
    ensures var w := RunCycles(start, steps);
            PostedSafely(Before(w, Cycle(w, o).worlds, i), Cycle(w, o).worlds[i])
  {
    hide Cycle, Takes, Inv, PostsOk, PostedSafely, Decided;
    var w := RunCycles(start, steps);
    EveryRun(start, steps);
    CycleTakesSteps(w, o);
    var k := StepAt(w, Cycle(w, o).worlds, i);
    StepPostsSafely(Before(w, Cycle(w, o).worlds, i), Cycle(w, o).worlds[i], k);
  }

  /* ---- Buys one at a time ---- */

  // Filled legs, then at most one that is neither filled nor planned, then planned ones.
  ghost predicate OneAtATime(legs: seq<Leg>) {
    forall i, j :: 0 <= i < j < |legs| && !legs[i].status.LegFilled? ==> legs[j].status.Planned?
  }

  // At most one leg that is neither filled nor planned, wherever it stands.
  ghost predicate OneOpen(legs: seq<Leg>) {
    forall i, j :: 0 <= i < j < |legs| ==> SettledOrPlanned(legs[i]) || SettledOrPlanned(legs[j])
  }

  datatype Shape = Ordered | Single

  ghost predicate Holds(shape: Shape, legs: seq<Leg>) {
    match shape
    case Ordered => OneAtATime(legs)
    case Single => OneOpen(legs)
  }

  ghost predicate BuysHold(shape: Shape, db: Db) {
    forall id :: ActiveIn(db, id) && db.workflows[id].phase.BuyPhase? ==> Holds(shape, db.workflows[id].legs)
  }

  lemma OrderedHolds(shape: Shape, legs: seq<Leg>)
    requires OneAtATime(legs)
    ensures Holds(shape, legs)
  {
  }

  // No broker status is written to a buying workflow.
  ghost predicate Quiet(db: Db, next: Db) {
    forall id :: id in db.workflows && id in next.workflows && db.workflows[id].phase.BuyPhase? ==>
      QuietLegs(db.workflows[id].legs, next.workflows[id].legs)
  }

  ghost predicate QuietLegs(legs: seq<Leg>, next: seq<Leg>) {
    forall i :: 0 <= i < |legs| && i < |next| ==>
      next[i].status == legs[i].status || next[i].status.IntentRecorded? || next[i].status.BrokerAccepted?
  }

  lemma IntendOneAtATime(w: Workflow, i: nat)
    requires i < |w.legs| && w.legs[i].status.Planned? && (forall j :: 0 <= j < |w.legs| ==> SettledOrPlanned(w.legs[j]))
    requires forall j :: 0 <= j < i ==> !w.legs[j].status.Planned?
    requires forall j, k :: 0 <= j < k < |w.legs| && w.legs[j].status.Planned? ==> w.legs[k].status.Planned?
    ensures OneAtATime(w.legs[i := w.legs[i].(status := IntentRecorded)])
  {
  }

  lemma StepHolds(shape: Shape, w: World, next: World, k: Kind)
    requires Inv(w.db) && BuysHold(shape, w.db) && Takes(w, next, k) && Quiet(w.db, next.db)
    ensures BuysHold(shape, next.db)
  {
    hide Inv, MoveAndCommit, Fits, LegsOk, Holds, Takes, Quiet;
    StepKeepsInv(w, next, k);
    StepEvolves(w, next, k);
    forall id | ActiveIn(next.db, id) && next.db.workflows[id].phase.BuyPhase? ensures Holds(shape, next.db.workflows[id].legs) {
      BuyStep(shape, w, next, k, id);
    }
  }

  // One step on one buying workflow.
  lemma BuyStep(shape: Shape, w: World, next: World, k: Kind, id: nat)
    requires Inv(w.db) && BuysHold(shape, w.db) && Takes(w, next, k) && Quiet(w.db, next.db)
    requires ActiveIn(next.db, id) && next.db.workflows[id].phase.BuyPhase?
    ensures Holds(shape, next.db.workflows[id].legs)
  {
    hide Inv, Takes, Holds, Rewriting, Quiet;
    if Rewriting(w.db, k).Some? {
      RewriteEffect(w, next, k);
      if Rewriting(w.db, k).value.id == id {
        BuyRewrite(shape, w, next, k);
      }
    } else if k.Intending? || k.Accepting? {
      LegEffect(w, next, k);
      if LegAfter(w.db, k).value.0 == id {
        BuyLeg(shape, w, next, k);
      }
    } else {
      OtherEffect(w, next, k);
    }
  }

  lemma BuyLeg(shape: Shape, w: World, next: World, k: Kind)
    requires Inv(w.db) && BuysHold(shape, w.db) && Takes(w, next, k) && (k.Intending? || k.Accepting?)
    requires LegAfter(w.db, k).Some?
    ensures var (id, i, leg) := LegAfter(w.db, k).value;
            next.db.workflows[id].phase.BuyPhase? ==> Holds(shape, next.db.workflows[id].legs)
  {
    hide Inv, OneAtATime, OneOpen, NextToSubmit;
    LegEffect(w, next, k);
    var (id, i, leg) := LegAfter(w.db, k).value;
    if w.db.workflows[id].phase.BuyPhase? {
      if k.Intending? {
        NextIsAlone(w.db, id, i);
        IntendOneAtATime(w.db.workflows[id], i);
        OrderedHolds(shape, next.db.workflows[id].legs);
      } else {
        AcceptHolds(shape, w.db.workflows[id].legs, i, leg);
      }
    }
  }

  lemma BuyRewrite(shape: Shape, w: World, next: World, k: Kind)
    requires Inv(w.db) && BuysHold(shape, w.db) && Takes(w, next, k) && Quiet(w.db, next.db) && Rewriting(w.db, k).Some?
    ensures var r := Rewriting(w.db, k).value.record;
            r.status.Active? && r.phase.BuyPhase? ==> Holds(shape, r.legs)
  {
    hide Inv, OneAtATime, OneOpen, BuyProgress, Covers, MoveAndCommit, SellVerdict, BuyVerdict, AllReconcilable, Indexes;
    RewriteEffect(w, next, k);
    match k
    case Installing(id, specs) =>
      if specs != [] {
        InstalledOneAtATime(id, w.db.workflows[id], specs, w.db);
        OrderedHolds(shape, w.db.workflows[id].legs + PlannedLegs(specs));
      }
    case Persisting(id, statuses, status, suffix, to) =>
      ProgressKeys(w.db, id, statuses, status, suffix, to);
      QuietStatuses(w.db.workflows[id].legs, statuses);
    case MarkingBuy(id) => AllFilledVerdict(w.db.workflows[id].legs);
    case MarkingSell(id, statuses) => SellNeverBuys(statuses);
    case _ =>
  }

  // Writing statuses without a change of status changes nothing.
  lemma QuietStatuses(legs: seq<Leg>, statuses: map<nat, LegStatus>)
    requires statuses.Values <= RECONCILED && QuietLegs(legs, WithStatuses(legs, statuses))
    ensures WithStatuses(legs, statuses) == legs
  {
    var next := WithStatuses(legs, statuses);
    forall i: nat | i < |legs| ensures next[i] == legs[i] {
      if i in statuses {
        assert statuses[i] in statuses.Values;
      }
    }
  }

  lemma SellNeverBuys(statuses: map<nat, LegStatus>)
    ensures !SellVerdict(statuses).phase.BuyPhase?
  {
  }

  lemma AllFilledVerdict(legs: seq<Leg>)
    ensures Indexes(legs, Buy) != {} ==> BuyVerdict(AllFilled(legs)).status.Complete?
  {
    var statuses := AllFilled(legs);
    if Indexes(legs, Buy) != {} {
      assert statuses.Keys == Indexes(legs, Buy);
      OnlyFilled(statuses);
    }
  }

  lemma ProgressKeys(db: Db, id: nat, statuses: map<nat, LegStatus>, status: WorkflowStatus, suffix: Suffix, to: ExecState)
    requires BuyProgress(db, id, statuses, status, suffix, to)
    ensures ActiveIn(db, id) && db.workflows[id].phase.BuyPhase? && statuses.Values <= RECONCILED
  {
  }

  lemma NextIsAlone(db: Db, id: nat, i: nat)
    requires Inv(db) && NextToSubmit(db, id, i) && db.workflows[id].phase.BuyPhase?
    ensures i < |db.workflows[id].legs| && db.workflows[id].legs[i].status.Planned?
    ensures forall j :: 0 <= j < |db.workflows[id].legs| ==> SettledOrPlanned(db.workflows[id].legs[j])
    ensures forall j :: 0 <= j < i ==> !db.workflows[id].legs[j].status.Planned?
    ensures forall j, k :: 0 <= j < k < |db.workflows[id].legs| && db.workflows[id].legs[j].status.Planned?
              ==> db.workflows[id].legs[k].status.Planned?
  {
    assert Fits(db.workflows[id], db.machine.exec, db.machine.account);
  }

  lemma AcceptHolds(shape: Shape, legs: seq<Leg>, i: nat, leg: Leg)
    requires Holds(shape, legs) && i < |legs| && legs[i].status.IntentRecorded? && leg.status.BrokerAccepted?
    ensures Holds(shape, legs[i := leg])
  {
  }

  lemma InstalledOneAtATime(id: nat, w: Workflow, specs: seq<LegSpec>, db: Db)
    requires Inv(db) && ActiveIn(db, id) && db.workflows[id] == w && w.phase.ReconcilePhase?
    ensures OneAtATime(w.legs + PlannedLegs(specs))
  {
    assert Fits(w, db.machine.exec, db.machine.account);
  }

  lemma {:induction false} StepsHold(shape: Shape, w: World, worlds: seq<World>)
    requires Good(w) && BuysHold(shape, w.db) && Steps(w, worlds) && QuietTrace(w, worlds)
    ensures Good(At(w, worlds)) && BuysHold(shape, At(w, worlds).db)
    decreases |worlds|
  {
    hide Inv, PostsOk, Takes, BuysHold, Quiet;
    if worlds != [] {
      var k :| Takes(w, worlds[0], k);
      assert Quiet(Before(w, worlds, 0).db, worlds[0].db);
      StepHolds(shape, w, worlds[0], k);
      StepKeepsInv(w, worlds[0], k);
      StepKeepsPosts(w, worlds[0], k);
      forall i | 0 <= i < |worlds[1..]| ensures Quiet(Before(worlds[0], worlds[1..], i).db, worlds[1..][i].db) {
        assert Quiet(Before(w, worlds, i + 1).db, worlds[i + 1].db);
      }
      StepsHold(shape, worlds[0], worlds[1..]);
    }
  }

  ghost predicate QuietTrace(w: World, worlds: seq<World>) {
    forall i :: 0 <= i < |worlds| ==> Quiet(Before(w, worlds, i).db, worlds[i].db)
  }
}
