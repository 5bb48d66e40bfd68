// A buy that costs more than its estimate can leave less cash than the next one is estimated at.
// Recovery goes on choosing that next buy, and the executor goes on refusing it.
module DearBuy {
  import opened Common
  import opened Capital
  import opened ExecutionTables
  import opened Executor
  import opened ExecutionSteps
  import opened ExecutionInvariant
  import opened PostOrder
  import opened CycleSteps
  import opened CycleRuns
  import opened BuySequence
  import opened BuysInFlight
  import opened DecisionTable
  import opened Refusals
  import opened Reconciliation
  import opened FillTakenBack

  // Nothing stands in the way of the next buy but its estimate.
  ghost predicate Stuck(db: Db, id: nat) {
    SafeToSubmit(db, id, Buy) && NextBuyTooDear(db, id)
  }

  lemma StuckChoice(w: World, id: nat)
    requires Good(w) && Stuck(w.db, id)
    ensures Awaiting(w.db) == {} && Classify(w.db, None) == Ok((w.db, Decision(Some(id), SubmitBuy)))
  {
    hide Inv, PostsOk, Classify, NextBuyTooDear, Awaiting, NonComplete;
    NotAwaiting(w.db, id);
    ClassifyTable(w.db);
    ChosenFor(w.db);
    BuyIsPlanned(w.db, id);
    assert IsOpen(w.db, id);
  }

  lemma NotAwaiting(db: Db, id: nat)
    requires Inv(db) && ActiveIn(db, id)
    ensures Awaiting(db) == {}
  {
    hide Inv, Awaiting;
    OpenIsUnfinished(db);
    assert id in NonComplete(db);
  }

  lemma StuckCycle(w: World, id: nat, o: Oracle)
    requires Good(w) && Stuck(w.db, id)
    ensures Cycle(w, o).worlds == [w]
  {
    hide Inv, PostsOk, Classify, NextBuyTooDear, Awaiting, LegsOf, AnyAmbiguous, BuyCandidates, SubmitLegs, SomeLeg;
    StuckChoice(w, id);
    BuyIsPlanned(w.db, id);
    BuyReady(w.db, id);
    assert Submission(w, id, o).worlds == [];
  }

  // No cycle, whatever the outside answers, changes anything any more.
  lemma {:induction false} StuckForGood(w: World, id: nat, steps: seq<CycleStep>)
    requires Good(w) && Stuck(w.db, id)
    ensures RunCycles(w, steps) == w
  {
    hide Good, Stuck, Cycle;
    if steps != [] {
      StuckForGood(w, id, DropLast(steps));
      StuckCycle(w, id, Last(steps).oracle);
    }
  }

  /* ---- A run that gets stuck ---- */

  // The first buy, estimated at one euro, is filled for 999.50.
  const DEAR := RawFill(1, 0, Some(999.5), true, [], None)

  const DEAR_REPLY := ReconcileReply(true, map[7 := Report(BrokerFilled, Some(OrderFills(Some(Buy), [DEAR])))], true)

  const SENT := World(Bought(Sent(FIRST, 7), Waiting(SECOND)), [Post(1, 0, Buy)])

  lemma SendsFirst()
    ensures RunCycles(FRESH, RUN[..3]) == SENT
    ensures Good(SENT)
  {
    hide Cycle, Stopped, StepAnswers, Inv, PostsOk;
    Creates();
    Installs();
    Sends(Waiting(FIRST), Waiting(SECOND), 0, 7, []);
    assert [] + [Post(1, 0, Buy)] == [Post(1, 0, Buy)];
    assert RUN[..0] == [];
    NextRun(FRESH, RUN, 0);
    NextRun(FRESH, RUN, 1);
    NextRun(FRESH, RUN, 2);
    FreshEnough();
    EveryRun(FRESH, RUN[..3]);
  }

  lemma FreshEnough()
    ensures FreshStart(FRESH)
  {
  }

  const LEGS := [Sent(FIRST, 7), Waiting(SECOND)]

  lemma OneRecord(orderId: nat, record: OrderFills)
    ensures Recorded(DEAR_REPLY, LEGS, Buy, orderId, record) <==> orderId == 7 && record == OrderFills(Some(Buy), [DEAR])
  {
    assert LEGS[0] == Sent(FIRST, 7) && LEGS[1] == Waiting(SECOND);
    assert IsSubmitted(LEGS, Buy, 0);
  }

  lemma OneFill(orderId: nat, fill: RawFill)
    ensures ReportedFill(DEAR_REPLY, LEGS, Buy, orderId, fill) <==> orderId == 7 && fill == DEAR
  {
    hide Recorded;
    OneRecord(orderId, OrderFills(Some(Buy), [DEAR]));
    forall record ensures Recorded(DEAR_REPLY, LEGS, Buy, orderId, record) ==> record == OrderFills(Some(Buy), [DEAR]) {
      OneRecord(orderId, record);
    }
    assert DEAR in [DEAR];
  }

  const DEAR_ROW := LedgerRow(FillEvent(FillKey(7, 1), Buy, -99950, 0, DEAR), 1)

  lemma OneRow(row: LedgerRow)
    ensures ReportedRow(DEAR_REPLY, LEGS, Buy, 1, row) <==> row == DEAR_ROW
  {
    hide ReportedFill, IsCents;
    OneFill(7, DEAR);
    assert IsCents(99950, 999.5) && IsCents(0, 0.0) by {
      CentsOf();
    }
    if ReportedRow(DEAR_REPLY, LEGS, Buy, 1, row) {
      var orderId, fill :| ReportedFill(DEAR_REPLY, LEGS, Buy, orderId, fill) && RowOf(row, Buy, 1, orderId, fill);
      OneFill(orderId, fill);
      OneCents(-row.event.delta, 99950, 999.5);
      OneCents(row.event.fee, 0, 0.0);
    }
    assert RowOf(DEAR_ROW, Buy, 1, 7, DEAR);
  }

  lemma CentsOf()
    ensures IsCents(99950, 999.5) && IsCents(0, 0.0)
  {
  }

  lemma DearFinishes()
    ensures Finished(ReconcileCurrent(SENT, 1, DEAR_REPLY))
  {
    hide Good, Recorded, ReportedRow, SomeUnanswered, AllReportedFilled;
    SendsFirst();
    var legs := SENT.db.workflows[1].legs;
    assert legs == LEGS && LEGS[0] == Sent(FIRST, 7) && LEGS[1] == Waiting(SECOND);
    assert InFlight(legs[0]) && IsSubmitted(legs, Buy, 0);
    forall orderId, record | Recorded(DEAR_REPLY, legs, Buy, orderId, record)
      ensures record.side == Some(Buy) && AllBookable(record.fills)
    {
      OneRecord(orderId, record);
    }
    forall a, b | ReportedRow(DEAR_REPLY, legs, Buy, 1, a) && (b in SENT.db.ledger || ReportedRow(DEAR_REPLY, legs, Buy, 1, b))
      ensures a == b
    {
      OneRow(a);
      OneRow(b);
    }
    NothingUnanswered();
    ReconcileFinishes(SENT, 1, DEAR_REPLY);
  }

  lemma NothingUnanswered()
    ensures !SomeUnanswered(LEGS, Buy)
  {
    assert LEGS[0] == Sent(FIRST, 7) && LEGS[1] == Waiting(SECOND);
  }

  lemma OneRowLedger(ledger: seq<LedgerRow>)
    requires DistinctFills(ledger) && forall row :: row in ledger <==> row == DEAR_ROW
    ensures ledger == [DEAR_ROW]
  {
    assert DEAR_ROW in ledger;
    forall k | 0 <= k < |ledger| ensures ledger[k] == DEAR_ROW {
      assert ledger[k] in ledger;
    }
    assert |ledger| > 1 ==> ledger[0].event.key != ledger[1].event.key;
  }

  // After the dear fill the second buy is stuck behind its estimate.
  lemma DearLeaves(next: World)
    requires Reconciled(SENT, 1, Buy, DEAR_REPLY, next)
    ensures Stuck(next.db, 1)
  {
    hide ReportedRow, Deltas, Fees, SomeIs;
    var ledger := next.db.ledger;
    assert SENT.db.workflows[1].legs == LEGS && LEGS[0] == Sent(FIRST, 7) && LEGS[1] == Waiting(SECOND);
    forall row ensures row in ledger <==> row == DEAR_ROW {
      OneRow(row);
    }
    OneRowLedger(ledger);
    assert ledger[0..] == [DEAR_ROW];
    Booking.SumsOfOne(DEAR_ROW);
    var legs := next.db.workflows[1].legs;
    assert IsSubmitted(LEGS, Buy, 0) && !IsSubmitted(LEGS, Buy, 1);
    assert legs[0].status.LegFilled? && legs[1].status.Planned?;
    DearLegs(legs);
    assert next.db.machine.account.cash == 50;
    assert FirstPlanned(legs, 1) && legs[1].spec.estimate == Some(100.0);
  }

  lemma DearLegs(legs: seq<Leg>)
    requires |legs| == 2 && legs[0].spec.side.Buy? && legs[1].spec.side.Buy? && legs[0].status.LegFilled? && legs[1].status.Planned?
    ensures Reconciliation.AllFilled(legs, Buy) && SomeIs(legs, Buy, Planned)
    ensures !SomeIs(legs, Buy, LegUnknown) && !SomeIs(legs, Buy, LegFailed)
  {
    assert legs[1].spec.side == Buy && legs[1].status == Planned;
  }

  // A run of single cycles on which one fill above its estimate leaves the workflow stuck.
  lemma DearBuyIsReached() returns (steps: seq<CycleStep>)
    ensures FreshStart(FRESH) && Good(RunCycles(FRESH, steps)) && Stuck(RunCycles(FRESH, steps).db, 1)
  {
    hide Stuck, Cycle, Good, Reconciled, StepAnswers;
    SendsFirst();
    DearFinishes();
    var o := QUIET.(reconcile := DEAR_REPLY);
    DearCycle(o);
    var last := CycleStep(o, |Cycle(SENT, o).worlds|);
    steps := RUN[..3] + [last];
    assert DropLast(steps) == RUN[..3];
    var worlds := Cycle(SENT, o).worlds;
    assert worlds[..|worlds|] == worlds;
    RunGood(FRESH, steps, 4);
    assert steps[..4] == steps;
  }

  lemma DearCycle(o: Oracle)
    requires o == QUIET.(reconcile := DEAR_REPLY)
    ensures Stuck(At(SENT, Cycle(SENT, o).worlds).db, 1)
  {
    hide Stuck, Classify, ReconcileCurrent, Awaiting, Bought, Reconciled;
    Buys(Sent(FIRST, 7), Waiting(SECOND));
    DearFinishes();
    SentIs();
    var t := ReconcileCurrent(SENT, 1, DEAR_REPLY);
    ReconcileMakes(SENT, 1, DEAR_REPLY);
    DearLeaves(At(SENT, t.worlds));
    EndThen(SENT, [SENT], t.worlds);
  }

  lemma SentIs()
    ensures DistinctFills(SENT.db.ledger) && 1 in SENT.db.workflows && SideOf(SENT.db.workflows[1]) == Buy
    ensures InFlight(Sent(FIRST, 7))
  {
  }
}
