// A run on which the broker takes a fill back: the first buy is reported FILLED, the second goes
// out, and then both are reported PENDING.
module FillTakenBack {
  import opened Common
  import opened Capital
  import opened ExecutionTables
  import opened Executor
  import opened ExecutionSteps
  import opened ExecutionInvariant
  import opened CycleRuns
  import opened BuySequence
  import opened BuysInFlight

  const PLAN := Plan(1, false, 0)

  const FIRST := LegSpec(Buy, 1, 1.0, Some(100.0))

  const SECOND := LegSpec(Buy, 2, 1.0, Some(100.0))

  const NO_REPLY := ReconcileReply(true, map[], true)

  const QUIET := Oracle([], [], PlanNothing, [], true, true, true, [], NO_REPLY, None)

  const FRESH := World(Initial(Account(0, 100000, 0, 0)), [])

  function Reported(first: BrokerState): ReconcileReply {
    ReconcileReply(true, map[7 := Report(first, None), 8 := Report(BrokerPending, None)], true)
  }

  const RUN: seq<CycleStep> := [
    CycleStep(QUIET.(plan := PlanOrders(PLAN, [])), 10),
    CycleStep(QUIET.(replan := Some([FIRST, SECOND])), 10),
    CycleStep(QUIET.(replies := [Accepted(7)]), 10),
    CycleStep(QUIET.(reconcile := Reported(BrokerFilled)), 10),
    CycleStep(QUIET.(replies := [Accepted(8)]), 10),
    CycleStep(QUIET.(reconcile := Reported(BrokerPending)), 10)]

  // The store while the one workflow is in a phase.
  function Store(revision: int, exec: ExecState, phase: Phase, legs: seq<Leg>, journal: seq<Row>): Db {
    Db(Machine(Account(revision, 100000, 0, 0), exec), map[1 := Workflow(PLAN, Active, phase, legs)], journal, [])
  }

  const CREATED_ROW := ExecRow(ExecKey(1, Created), 0, 1, Idle, PlanCreated)

  const START_ROW := ExecRow(ExecKey(1, ExecutionTables.Start), 1, 2, PlanCreated, Reconciling)

  const INSTALLED_ROW := ExecRow(ExecKey(1, BuyInstalled), 2, 3, Reconciling, BuyPending)

  const JOURNAL := [CREATED_ROW, START_ROW, INSTALLED_ROW]

  function Bought(first: Leg, second: Leg): Db {
    Store(3, BuyPending, BuyPhase, [first, second], JOURNAL)
  }

  function Waiting(spec: LegSpec): Leg {
    Leg(spec, Planned, None)
  }

  function Sent(spec: LegSpec, orderId: nat): Leg {
    Leg(spec, BrokerAccepted, Some(orderId))
  }

  lemma OneWorkflow(db: Db)
    requires db.workflows.Keys == {1} && db.workflows[1].status.Active?
    ensures Awaiting(db) == {} && Classify(db, None) == ClassifyActive(db, 1)
    requires !db.machine.exec.ReconRequired?
  {
    hide ClassifyActive;
    assert NonComplete(db) == {1};
  }

  lemma TwoLegs(first: Leg, second: Leg)
    requires first.spec.side.Buy? && second.spec.side.Buy?
    ensures LegsOf([first, second], Buy) == [first, second]
    ensures Indexes([first, second], Buy) == {0, 1}
    ensures PlannedIndexes([first, second], Buy) ==
            (if first.status.Planned? then [0] else []) + (if second.status.Planned? then [1] else [])
    ensures SubmittedIndexes([first, second], Buy) ==
            (if first.status.Planned? then [] else [0]) + (if second.status.Planned? then [] else [1])
  {
    var legs := [first, second];
    assert DropLast(legs) == [first] && DropLast([first]) == [];
    assert LegsOf([first], Buy) == [first];
    assert PlannedIndexes([first], Buy) == if first.status.Planned? then [0] else [];
    assert SubmittedIndexes([first], Buy) == if first.status.Planned? then [] else [0];
    assert legs[0] == first && legs[1] == second;
  }

  // A first move of the machine, with cash on hand.
  lemma Moves(db: Db, w: Workflow, suffix: Suffix, to: ExecState)
    requires FindRow(db.journal, ExecKey(1, suffix)).None? && db.machine.exec != to && !to.Idle? && db.machine.account.cash > 0
    ensures var a := db.machine.account;
            MoveAndCommit(Put(db, 1, w), 1, suffix, to) ==
            Ok(Db(Machine(a.(revision := a.revision + 1), to), db.workflows[1 := w],
                  db.journal + [ExecRow(ExecKey(1, suffix), a.revision, a.revision + 1, db.machine.exec, to)], db.ledger))
  {
  }

  const CREATED_STORE := Store(1, PlanCreated, NoPhase, [], [CREATED_ROW])

  const STARTED_STORE := Store(2, Reconciling, ReconcilePhase, [], [CREATED_ROW, START_ROW])

  lemma CreatesStore()
    ensures CreateWorkflow(FRESH.db, PLAN, []) == Ok(CREATED_STORE)
  {
    hide MoveAndCommit;
    assert ActiveIds(FRESH.db) == {};
    Moves(FRESH.db, Workflow(PLAN, Active, NoPhase, []), Created, PlanCreated);
    assert PlannedLegs([]) == [];
    assert [] + [CREATED_ROW] == [CREATED_ROW];
    assert map[][1 := Workflow(PLAN, Active, NoPhase, [])] == map[1 := Workflow(PLAN, Active, NoPhase, [])];
  }

  lemma StartsStore()
    ensures StartWorkflow(CREATED_STORE, 1) == Ok(STARTED_STORE)
  {
    hide MoveAndCommit;
    assert DropLast([CREATED_ROW]) == [];
    Moves(CREATED_STORE, Workflow(PLAN, Active, ReconcilePhase, []), ExecutionTables.Start, Reconciling);
    assert [CREATED_ROW] + [START_ROW] == [CREATED_ROW, START_ROW];
    assert CREATED_STORE.workflows[1 := Workflow(PLAN, Active, ReconcilePhase, [])] == STARTED_STORE.workflows;
  }

  lemma Creates()
    ensures Stopped(FRESH, Cycle(FRESH, RUN[0].oracle), 10) == World(STARTED_STORE, [])
  {
    hide CreateWorkflow, StartWorkflow;
    CreatesStore();
    StartsStore();
    assert NonComplete(FRESH.db) == {} && Awaiting(FRESH.db) == {};
    assert Classify(FRESH.db, None) == Ok((FRESH.db, Decision(None, NoWorkflow)));
    hide Classify, Awaiting;
    var o := RUN[0].oracle;
    assert PlanNewWork(FRESH, o).worlds == [World(CREATED_STORE, [])] + [World(STARTED_STORE, [])];
    assert Cycle(FRESH, o).worlds == [FRESH] + PlanNewWork(FRESH, o).worlds;
  }

  lemma InstallsStore()
    ensures InstallBuys(STARTED_STORE, 1, [FIRST, SECOND]) == Ok(Bought(Waiting(FIRST), Waiting(SECOND)))
  {
    hide MoveAndCommit;
    var specs := [FIRST, SECOND];
    assert Indexes([], Buy) == {};
    assert Estimates(specs) == 200.0 by {
      assert DropLast(specs) == [FIRST] && DropLast([FIRST]) == [];
      assert Estimates([FIRST]) == 100.0;
    }
    assert DropLast([CREATED_ROW, START_ROW]) == [CREATED_ROW] && DropLast([CREATED_ROW]) == [];
    assert FindRow([CREATED_ROW], ExecKey(1, BuyInstalled)).None?;
    var bought := Workflow(PLAN, Active, BuyPhase, [Waiting(FIRST), Waiting(SECOND)]);
    assert [] + PlannedLegs(specs) == bought.legs;
    Moves(STARTED_STORE, bought, BuyInstalled, BuyPending);
    assert [CREATED_ROW, START_ROW] + [INSTALLED_ROW] == JOURNAL;
    assert STARTED_STORE.workflows[1 := bought] == map[1 := bought];
  }

  lemma Installs()
    ensures var w := World(STARTED_STORE, []);
            Stopped(w, Cycle(w, RUN[1].oracle), 10) == World(Bought(Waiting(FIRST), Waiting(SECOND)), [])
  {
    hide InstallBuys, Classify, Awaiting;
    var w := World(STARTED_STORE, []);
    OneWorkflow(STARTED_STORE);
    assert LegsOf([], Buy) == [];
    assert ClassifyActive(STARTED_STORE, 1) == Ok((STARTED_STORE, Decision(Some(1), ReplanBuys)));
    InstallsStore();
    assert Cycle(w, RUN[1].oracle).worlds == [w] + [World(Bought(Waiting(FIRST), Waiting(SECOND)), [])];
  }

  lemma Buys(first: Leg, second: Leg)
    requires first.spec == FIRST && second.spec == SECOND
    requires first.status.Planned? ==> first == Waiting(FIRST)
    requires second.status.Planned? ==> second == Waiting(SECOND)
    requires first.status in {Planned, LegFilled, BrokerAccepted} && (first.status.Planned? || first.orderId.Some?)
    requires second.status in {Planned, BrokerAccepted} && (second.status.Planned? || second.orderId.Some?)
    requires !(first.status.LegFilled? && second.status.LegFilled?)
    ensures var db := Bought(first, second);
            && Awaiting(db) == {}
            && Classify(db, None) ==
               Ok((db, Decision(Some(1), if InFlight(first) || InFlight(second) then ReconcileBuy else SubmitBuy)))
  {
    hide MoveAndCommit, LegsOf;
    var db := Bought(first, second);
    OneWorkflow(db);
    TwoLegs(first, second);
    var legs := [first, second];
    assert legs[0] == first && legs[1] == second;
  }

  lemma OneIsNext(first: Leg, second: Leg, i: nat)
    requires first.spec == FIRST && second == Waiting(SECOND)
    requires if i == 0 then first == Waiting(FIRST) else i == 1 && first.status.LegFilled? && first.orderId.Some?
    ensures BuyCandidates(Bought(first, second), [first, second]) == Ok([i])
    ensures LegsOf([first, second], Buy) == [first, second] && !AnyAmbiguous([first, second])
  {
    hide LegsOf, PlannedIndexes;
    var legs := [first, second];
    TwoLegs(first, second);
    assert legs[0] == first && legs[1] == second;
  }

  lemma OneGoesOut(w: World, first: Leg, second: Leg, i: nat, orderId: nat)
    requires w.db == Bought(first, second) && first.spec == FIRST && second.spec == SECOND
    requires i <= 1 && [first, second][i] == Waiting(if i == 0 then FIRST else SECOND)
    ensures var t := SubmitLegs(w, 1, Buy, [i], [Accepted(orderId)]);
            && |t.worlds| == 3
            && t.worlds[2] == World(Bought(if i == 0 then Sent(FIRST, orderId) else first, if i == 1 then Sent(SECOND, orderId) else second),
                                    w.posts + [Post(1, i, Buy)])
  {
    var db := w.db;
    var spec := if i == 0 then FIRST else SECOND;
    var intended := PutLeg(db, 1, i, Leg(spec, IntentRecorded, None));
    assert RecordIntent(db, 1, i) == Ok(intended);
    var accepted := PutLeg(intended, 1, i, Sent(spec, orderId));
    assert RecordAcceptance(intended, 1, i, orderId) == Ok(accepted);
    var next := Bought(if i == 0 then Sent(FIRST, orderId) else first, if i == 1 then Sent(SECOND, orderId) else second);
    assert accepted.workflows[1].legs == next.workflows[1].legs;
    assert accepted.workflows == next.workflows;
    hide RecordIntent, RecordAcceptance;
    var w1 := w.(db := intended);
    var w2 := w1.(posts := w.posts + [Post(1, i, Buy)]);
    var w3 := w2.(db := accepted);
    assert SubmitLegs(w, 1, Buy, [i], [Accepted(orderId)]).worlds == [w1, w2, w3] + [];
  }

  // The next buy goes out and is accepted.
  lemma Sends(first: Leg, second: Leg, i: nat, orderId: nat, posts: seq<Post>)
    requires first.spec == FIRST && second == Waiting(SECOND)
    requires if i == 0 then first == Waiting(FIRST) else i == 1 && first.status.LegFilled? && first.orderId.Some?
    ensures var w := World(Bought(first, second), posts);
            Stopped(w, Cycle(w, QUIET.(replies := [Accepted(orderId)])), 10) ==
            World(Bought(if i == 0 then Sent(FIRST, orderId) else first, if i == 1 then Sent(SECOND, orderId) else second),
                  posts + [Post(1, i, Buy)])
  {
    hide LegsOf, SubmitLegs, BuyCandidates, Classify, Awaiting;
    var w, o := World(Bought(first, second), posts), QUIET.(replies := [Accepted(orderId)]);
    Buys(first, second);
    OneIsNext(first, second, i);
    OneGoesOut(w, first, second, i, orderId);
    var t := SubmitLegs(w, 1, Buy, [i], [Accepted(orderId)]);
    assert SubmitCurrent(w, 1, true, o.replies) == t;
    assert Cycle(w, o).worlds == [w] + t.worlds;
  }

  lemma NoReports(w: World, decision: nat, legs: seq<Leg>, indexes: seq<nat>, reply: ReconcileReply)
    requires forall orderId: nat :: ReportFor(reply, orderId).history.None?
    requires forall k :: 0 <= k < |indexes| ==> indexes[k] < |legs|
    ensures ApplyReports(w, decision, legs, Buy, indexes, reply) == Trace([], Ok(()))
    decreases |indexes|
  {
    if indexes != [] {
      NoReports(w, decision, legs, indexes[1..], reply);
    }
  }

  // A commit of reported statuses that leaves the machine where it is.
  lemma Writes(first: Leg, second: Leg, statuses: map<nat, LegStatus>, suffix: Suffix)
    requires suffix in {BuyStillPending, BuyLegFilled(0)}
    ensures var legs := WithStatuses([first, second], statuses);
            |legs| == 2 &&
            PersistBuyProgress(Bought(first, second), 1, statuses, Active, suffix, BuyPending) == Ok(Bought(legs[0], legs[1]))
  {
    var db, legs := Bought(first, second), WithStatuses([first, second], statuses);
    assert DropLast(JOURNAL) == [CREATED_ROW, START_ROW] && DropLast([CREATED_ROW, START_ROW]) == [CREATED_ROW];
    assert DropLast([CREATED_ROW]) == [];
    assert FindRow([CREATED_ROW], ExecKey(1, suffix)).None?;
    assert FindRow([CREATED_ROW, START_ROW], ExecKey(1, suffix)).None?;
    assert FindRow(JOURNAL, ExecKey(1, suffix)).None?;
    assert legs == [legs[0], legs[1]];
    var put := Put(db, 1, Workflow(PLAN, Active, BuyPhase, legs));
    assert put == Bought(legs[0], legs[1]);
  }

  lemma StatusesOfTwo(first: Leg, second: Leg, state: BrokerState)
    requires first.spec.side.Buy? && second.spec.side.Buy? && first.orderId == Some(7) && !first.status.Planned?
    requires second.status.Planned? || second.orderId == Some(8)
    ensures ReportedStatuses([first, second], Buy, Reported(state)) ==
            if second.status.Planned? then map[0 := StatusFor(state)] else map[0 := StatusFor(state), 1 := LegPending]
  {
    var legs := [first, second];
    assert legs[0] == first && legs[1] == second;
  }

  // Every submitted leg has an order id of its own.
  lemma Identified(first: Leg, second: Leg, submitted: seq<nat>)
    requires first.orderId == Some(7) && (submitted == [0] || (submitted == [0, 1] && second.orderId == Some(8)))
    requires !first.status.IntentRecorded? && !second.status.IntentRecorded?
    ensures !AnyAmbiguous([first, second]) && !MissingOrderId([first, second], submitted) && !SharedOrderId([first, second], submitted)
  {
    var legs := [first, second];
    assert legs[0] == first && legs[1] == second;
  }

  lemma FirstReconciled(w: World)
    requires w.db == Bought(Sent(FIRST, 7), Waiting(SECOND))
    ensures ReconcileCurrent(w, 1, Reported(BrokerFilled)).worlds ==
            [w.(db := Bought(Sent(FIRST, 7).(status := LegFilled), Waiting(SECOND)))]
  {
    hide LegsOf, PlannedIndexes, SubmittedIndexes, MoveAndCommit, PersistBuyProgress, ReportedStatuses, ApplyReports, AnyAmbiguous, SharedOrderId, MissingOrderId;
    var first, second := Sent(FIRST, 7), Waiting(SECOND);
    var legs, reply := [first, second], Reported(BrokerFilled);
    TwoLegs(first, second);
    assert SubmittedIndexes(legs, Buy) == [0] && PlannedIndexes(legs, Buy) == [1];
    Identified(first, second, [0]);
    NoReports(w, 1, legs, [0], reply);
    StatusesOfTwo(first, second, BrokerFilled);
    var statuses := ReportedStatuses(legs, Buy, reply);
    assert 0 in statuses && statuses.Values == {LegFilled};
    assert legs[0] == first && legs[1] == second;
    Writes(first, second, statuses, BuyLegFilled(0));
  }

  lemma BothReconciled(w: World)
    requires w.db == Bought(Sent(FIRST, 7).(status := LegFilled), Sent(SECOND, 8))
    ensures ReconcileCurrent(w, 1, Reported(BrokerPending)).worlds ==
            [w.(db := Bought(Sent(FIRST, 7).(status := LegPending), Sent(SECOND, 8).(status := LegPending)))]
  {
    hide LegsOf, PlannedIndexes, SubmittedIndexes, MoveAndCommit, PersistBuyProgress, ReportedStatuses, ApplyReports, AnyAmbiguous, SharedOrderId, MissingOrderId;
    var first, second := Sent(FIRST, 7).(status := LegFilled), Sent(SECOND, 8);
    var legs, reply := [first, second], Reported(BrokerPending);
    TwoLegs(first, second);
    assert SubmittedIndexes(legs, Buy) == [0, 1];
    Identified(first, second, [0, 1]);
    NoReports(w, 1, legs, [0, 1], reply);
    StatusesOfTwo(first, second, BrokerPending);
    var statuses := ReportedStatuses(legs, Buy, reply);
    assert 0 in statuses && statuses.Values == {LegPending};
    assert legs[0] == first && legs[1] == second;
    Writes(first, second, statuses, BuyStillPending);
  }

  // The first buy is reported FILLED.
  lemma FirstFills(posts: seq<Post>)
    ensures var w := World(Bought(Sent(FIRST, 7), Waiting(SECOND)), posts);
            Stopped(w, Cycle(w, RUN[3].oracle), 10) == World(Bought(Sent(FIRST, 7).(status := LegFilled), Waiting(SECOND)), posts)
  {
    hide ReconcileCurrent, Classify, Awaiting, Bought;
    var w := World(Bought(Sent(FIRST, 7), Waiting(SECOND)), posts);
    Buys(Sent(FIRST, 7), Waiting(SECOND));
    FirstReconciled(w);
  }

  // With the second buy out, both are reported PENDING.
  lemma TakenBack(posts: seq<Post>)
    ensures var w := World(Bought(Sent(FIRST, 7).(status := LegFilled), Sent(SECOND, 8)), posts);
            Stopped(w, Cycle(w, RUN[5].oracle), 10) ==
            World(Bought(Sent(FIRST, 7).(status := LegPending), Sent(SECOND, 8).(status := LegPending)), posts)
  {
    hide ReconcileCurrent, Classify, Awaiting, Bought;
    var w := World(Bought(Sent(FIRST, 7).(status := LegFilled), Sent(SECOND, 8)), posts);
    Buys(Sent(FIRST, 7).(status := LegFilled), Sent(SECOND, 8));
    BothReconciled(w);
  }

  // After the run two buys are in flight at once, and the first stands unfilled behind the second.
  lemma TwoBuysInFlight()
    ensures FreshStart(FRESH)
    ensures var w := RunCycles(FRESH, RUN);
            && ActiveIn(w.db, 1) && w.db.workflows[1].phase.BuyPhase?
            && |w.db.workflows[1].legs| == 2 && InFlight(w.db.workflows[1].legs[0]) && InFlight(w.db.workflows[1].legs[1])
            && w.posts == [Post(1, 0, Buy), Post(1, 1, Buy)]
    ensures !AlwaysHold(Single, FRESH, RUN) && !AlwaysHold(Ordered, FRESH, RUN)
  {
    hide Cycle, Stopped, StepAnswers;
    Creates();
    Installs();
    Sends(Waiting(FIRST), Waiting(SECOND), 0, 7, []);
    FirstFills([Post(1, 0, Buy)]);
    Sends(Sent(FIRST, 7).(status := LegFilled), Waiting(SECOND), 1, 8, [Post(1, 0, Buy)]);
    TakenBack([Post(1, 0, Buy), Post(1, 1, Buy)]);
    assert [] + [Post(1, 0, Buy)] == [Post(1, 0, Buy)];
    assert [Post(1, 0, Buy)] + [Post(1, 1, Buy)] == [Post(1, 0, Buy), Post(1, 1, Buy)];
    assert RUN[..0] == [];
    NextRun(FRESH, RUN, 0);
    NextRun(FRESH, RUN, 1);
    NextRun(FRESH, RUN, 2);
    NextRun(FRESH, RUN, 3);
    NextRun(FRESH, RUN, 4);
    NextRun(FRESH, RUN, 5);
    assert RUN[..6] == RUN;
    var w := RunCycles(FRESH, RUN[..6]);
    assert w.db == Bought(Sent(FIRST, 7).(status := LegPending), Sent(SECOND, 8).(status := LegPending));
    assert !BuysHold(Single, w.db) && !BuysHold(Ordered, w.db) by {
      BothOpen(w.db);
    }
  }

  lemma BothOpen(db: Db)
    requires db == Bought(Sent(FIRST, 7).(status := LegPending), Sent(SECOND, 8).(status := LegPending))
    ensures !BuysHold(Single, db) && !BuysHold(Ordered, db)
  {
    var legs := db.workflows[1].legs;
    assert ActiveIn(db, 1);
    assert !SettledOrPlanned(legs[0]) && !SettledOrPlanned(legs[1]);
    assert !Holds(Single, legs) && !Holds(Ordered, legs);
  }
}
