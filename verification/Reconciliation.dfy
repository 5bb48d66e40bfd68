// reconcile_current_phase of src/sp1execution/execution/broker_executor_v04.py, told by what the
// broker reports: when it ends well, which fills it books, and what it makes of the legs and the
// workflow.
module Reconciliation {
  import opened Common
  import opened Capital
  import opened ExecutionTables
  import opened Executor
  import opened ExecutionSteps
  import opened ExecutionInvariant
  import opened ExecutionKeeps
  import opened CycleSteps
  import opened CycleRuns
  import opened DecisionTable
  import opened Refusals
  import opened PostOrder
  import opened Booking

  /* ---- What is reported ---- */

  ghost predicate IsSubmitted(legs: seq<Leg>, side: Side, i: nat) {
    i < |legs| && legs[i].spec.side == side && !legs[i].status.Planned?
  }

  // The broker's record of the fills of a submitted leg.
  ghost predicate Recorded(reply: ReconcileReply, legs: seq<Leg>, side: Side, orderId: nat, record: OrderFills) {
    && (exists i: nat :: IsSubmitted(legs, side, i) && legs[i].orderId == Some(orderId))
    && orderId in reply.reports && reply.reports[orderId].history == Some(record)
  }

  ghost predicate ReportedFill(reply: ReconcileReply, legs: seq<Leg>, side: Side, orderId: nat, fill: RawFill) {
    exists record :: Recorded(reply, legs, side, orderId, record) && fill in record.fills
  }

  // Every record is of the side, and all its fills can be booked.
  ghost predicate RecordsUsable(reply: ReconcileReply, legs: seq<Leg>, side: Side) {
    forall orderId, record :: Recorded(reply, legs, side, orderId, record) ==> record.side == Some(side) && AllBookable(record.fills)
  }

  // The ledger row of a fill, for the decision of the workflow.
  ghost predicate RowOf(row: LedgerRow, side: Side, decision: nat, orderId: nat, fill: RawFill) {
    EventOf(row.event, orderId, side, fill) && row.decision == decision
  }

  ghost predicate ReportedRow(reply: ReconcileReply, legs: seq<Leg>, side: Side, decision: nat, row: LedgerRow) {
    exists orderId, fill :: ReportedFill(reply, legs, side, orderId, fill) && RowOf(row, side, decision, orderId, fill)
  }

  // No reported fill contradicts another, or a row that is there.
  ghost predicate NoConflict(ledger: seq<LedgerRow>, reply: ReconcileReply, legs: seq<Leg>, side: Side, decision: nat) {
    forall a, b :: ReportedRow(reply, legs, side, decision, a) && (b in ledger || ReportedRow(reply, legs, side, decision, b)) ==>
      a.event.key == b.event.key ==> a == b
  }

  // The ledger has grown by exactly the rows of the reported fills, no fill twice, and the account
  // by what they are worth.
  ghost predicate FillsBooked(db: Db, next: Db, reply: ReconcileReply, legs: seq<Leg>, side: Side, decision: nat) {
    && |db.ledger| <= |next.ledger| && next.ledger[..|db.ledger|] == db.ledger && DistinctFills(next.ledger)
    && (forall row :: row in next.ledger <==> row in db.ledger || ReportedRow(reply, legs, side, decision, row))
    && (forall orderId, fill :: ReportedFill(reply, legs, side, orderId, fill) ==>
          exists row :: row in next.ledger && RowOf(row, side, decision, orderId, fill))
    && next.machine.account.cash == db.machine.account.cash + Deltas(next.ledger[|db.ledger|..])
    && next.machine.account.fees == db.machine.account.fees + Fees(next.ledger[|db.ledger|..])
    && (next.machine.account.debt == if next.ledger == db.ledger then db.machine.account.debt else Debt(next.machine.account.cash))
  }

  ghost predicate StatusReported(reply: ReconcileReply, orderId: nat, status: LegStatus) {
    if orderId !in reply.reports then status.LegUnknown?
    else
      match reply.reports[orderId].state
      case BrokerPending => status.LegPending?
      case BrokerPartial => status.LegPartial?
      case BrokerFilled => status.LegFilled?
      case BrokerFailed => status.LegFailed?
      case BrokerUnknown => status.LegUnknown?
  }

  // The submitted legs of the side have the status reported for their order; nothing else changed.
  ghost predicate LegsMarked(legs: seq<Leg>, next: seq<Leg>, side: Side, reply: ReconcileReply) {
    && |next| == |legs|
    && forall i :: 0 <= i < |legs| ==>
         && next[i].spec == legs[i].spec && next[i].orderId == legs[i].orderId
         && if IsSubmitted(legs, side, i) then legs[i].orderId.Some? && StatusReported(reply, legs[i].orderId.value, next[i].status)
            else next[i].status == legs[i].status
  }

  ghost predicate SomeIs(legs: seq<Leg>, side: Side, status: LegStatus) {
    exists i :: 0 <= i < |legs| && legs[i].spec.side == side && legs[i].status == status
  }

  ghost predicate AllFilled(legs: seq<Leg>, side: Side) {
    forall i :: 0 <= i < |legs| && legs[i].spec.side == side && !legs[i].status.Planned? ==> legs[i].status.LegFilled?
  }

  // Where the workflow stands once its legs are marked.
  ghost predicate Stands(side: Side, legs: seq<Leg>, a: Account, status: WorkflowStatus, phase: Phase) {
    var same := if side.Sell? then SellPhase else BuyPhase;
    if SomeIs(legs, side, LegUnknown) then status.ReconciliationRequired? && phase == same
    else if SomeIs(legs, side, LegFailed) then status.Failed? && phase == same
    else if !AllFilled(legs, side) then status.Active? && phase == same
    else if side.Sell? then status.Active? && phase.ReconcilePhase?
    else if !CashOk(a) then status.ReconciliationRequired? && phase.BuyPhase?
    else if SomeIs(legs, Buy, Planned) then status.Active? && phase.BuyPhase?
    else status.Complete? && phase.ReconcilePhase?
  }

  // What a finished reconciliation has made of the world.
  ghost predicate Reconciled(w: World, id: nat, side: Side, reply: ReconcileReply, next: World)
    requires id in w.db.workflows
  {
    var wf := w.db.workflows[id];
    && FillsBooked(w.db, next.db, reply, wf.legs, side, wf.plan.decision)
    && next.posts == w.posts
    && id in next.db.workflows && next.db.workflows == w.db.workflows[id := next.db.workflows[id]]
    && var after := next.db.workflows[id];
       && after.plan == wf.plan && LegsMarked(wf.legs, after.legs, side, reply)
       && Stands(side, after.legs, next.db.machine.account, after.status, after.phase)
       && (AllFilled(after.legs, side) ==> reply.positionsMatch)
  }

  // It ended well, or stopped for the cash after writing down what was reported.
  ghost predicate Finished(t: Trace<()>) {
    t.outcome.Ok? || t.outcome == Err(CashBoundary)
  }

  /* ---- The rows of the reports ---- */

  lemma OrderRowsAre(decision: nat, side: Side, orderId: nat, reply: ReconcileReply, row: LedgerRow)
    requires ReportUsable(reply, side, orderId)
    ensures row in OrderRows(decision, side, orderId, reply) <==>
            && orderId in reply.reports && reply.reports[orderId].history.Some?
            && exists fill :: fill in reply.reports[orderId].history.value.fills && RowOf(row, side, decision, orderId, fill)
  {
    hide NormalizeOrderFills, Bookable;
    var history := ReportFor(reply, orderId).history;
    if history.Some? {
      var order := HistoricalOrder(orderId, history.value.side, history.value.fills);
      OrderEvents(order);
      EventMembers(order, row.event);
      var events := NormalizeOrderFills(order).value;
      if row in OrderRows(decision, side, orderId, reply) {
        var k :| 0 <= k < |events| && LedgerRow(events[k], decision) == row;
        assert row.event in events;
      }
      if row.event in events && row.decision == decision {
        var k :| 0 <= k < |events| && events[k] == row.event;
        assert Booking.RowsOf(events, decision)[k] == row;
      }
    }
  }

  // An event is there exactly if it is the event of a fill of the order.
  lemma EventMembers(order: HistoricalOrder, e: FillEvent)
    requires NormalizeOrderFills(order).Ok? && order.side.Some?
    ensures e in NormalizeOrderFills(order).value <==> exists fill :: fill in order.fills && EventOf(e, order.orderId, order.side.value, fill)
  {
    hide NormalizeOrderFills, EventOf, Bookable;
    OrderEvents(order);
    var events, side := NormalizeOrderFills(order).value, order.side.value;
    var evidences := Evidences(events);
    assert forall fill :: fill in evidences <==> fill in multiset(evidences);
    assert forall fill :: fill in order.fills <==> fill in multiset(order.fills);
    if e in events {
      var k :| 0 <= k < |events| && events[k] == e;
      assert evidences[k] in evidences;
    }
    if fill :| fill in order.fills && EventOf(e, order.orderId, side, fill) {
      assert fill in evidences;
      var k :| 0 <= k < |evidences| && evidences[k] == fill;
      assert EventOf(events[k], order.orderId, side, fill);
      NormalizedFill(order.orderId, side, fill);
    }
  }

  // Indexes of legs with an order id each.
  ghost predicate Identified(legs: seq<Leg>, indexes: seq<nat>) {
    forall k :: 0 <= k < |indexes| ==> indexes[k] < |legs| && legs[indexes[k]].orderId.Some?
  }

  ghost predicate RowAmong(decision: nat, legs: seq<Leg>, side: Side, indexes: seq<nat>, reply: ReconcileReply, row: LedgerRow)
    requires Identified(legs, indexes)
  {
    exists k :: 0 <= k < |indexes| && RowOfOrder(decision, side, legs[indexes[k]].orderId.value, reply, row)
  }

  ghost predicate RowOfOrder(decision: nat, side: Side, orderId: nat, reply: ReconcileReply, row: LedgerRow) {
    && orderId in reply.reports && reply.reports[orderId].history.Some?
    && exists fill :: fill in reply.reports[orderId].history.value.fills && RowOf(row, side, decision, orderId, fill)
  }

  lemma {:induction false} ReportRowsAre(
    decision: nat, legs: seq<Leg>, side: Side, indexes: seq<nat>, reply: ReconcileReply, row: LedgerRow)
    requires Identified(legs, indexes) && AllUsable(legs, side, indexes, reply)
    ensures row in ReportRows(decision, legs, side, indexes, reply) <==> RowAmong(decision, legs, side, indexes, reply, row)
    decreases |indexes|
  {
    hide ReportUsable, OrderRows, RowOfOrder;
    if indexes != [] {
      var rest := indexes[1..];
      ReportRowsAre(decision, legs, side, rest, reply, row);
      OrderRowsAreOf(decision, side, legs[indexes[0]].orderId.value, reply, row);
      if RowAmong(decision, legs, side, indexes, reply, row) {
        var k :| 0 <= k < |indexes| && RowOfOrder(decision, side, legs[indexes[k]].orderId.value, reply, row);
        assert k > 0 ==> rest[k - 1] == indexes[k];
      }
      if RowAmong(decision, legs, side, rest, reply, row) {
        var k :| 0 <= k < |rest| && RowOfOrder(decision, side, legs[rest[k]].orderId.value, reply, row);
        assert indexes[k + 1] == rest[k];
      }
    }
  }

  lemma OrderRowsAreOf(decision: nat, side: Side, orderId: nat, reply: ReconcileReply, row: LedgerRow)
    requires ReportUsable(reply, side, orderId)
    ensures row in OrderRows(decision, side, orderId, reply) <==> RowOfOrder(decision, side, orderId, reply, row)
  {
    OrderRowsAre(decision, side, orderId, reply, row);
  }

  ghost predicate Covering(legs: seq<Leg>, side: Side, indexes: seq<nat>) {
    Identified(legs, indexes) && forall i: nat :: i in indexes <==> IsSubmitted(legs, side, i)
  }

  // The reports of the submitted legs are usable, and their rows those of the reported fills.
  lemma ReportsAre(decision: nat, legs: seq<Leg>, side: Side, indexes: seq<nat>, reply: ReconcileReply)
    requires Covering(legs, side, indexes)
    ensures AllUsable(legs, side, indexes, reply) <==> RecordsUsable(reply, legs, side)
    ensures AllUsable(legs, side, indexes, reply) ==>
              forall row :: row in ReportRows(decision, legs, side, indexes, reply) <==> ReportedRow(reply, legs, side, decision, row)
  {
    hide AllBookable, EventOf;
    if AllUsable(legs, side, indexes, reply) {
      forall orderId, record | Recorded(reply, legs, side, orderId, record)
        ensures record.side == Some(side) && AllBookable(record.fills)
      {
        var k := IndexOf(legs, side, indexes, orderId);
        assert ReportUsable(reply, side, OrderId(legs[indexes[k]]));
      }
      forall row ensures row in ReportRows(decision, legs, side, indexes, reply) <==> ReportedRow(reply, legs, side, decision, row) {
        ReportRowsAre(decision, legs, side, indexes, reply, row);
        AmongReported(decision, legs, side, indexes, reply, row);
      }
    }
    if RecordsUsable(reply, legs, side) {
      forall k | 0 <= k < |indexes| ensures ReportUsable(reply, side, OrderId(legs[indexes[k]])) {
        assert indexes[k] in indexes;
        var orderId := legs[indexes[k]].orderId.value;
        if ReportFor(reply, orderId).history.Some? {
          assert Recorded(reply, legs, side, orderId, reply.reports[orderId].history.value);
        }
      }
    }
  }

  lemma IndexOf(legs: seq<Leg>, side: Side, indexes: seq<nat>, orderId: nat) returns (k: nat)
    requires Covering(legs, side, indexes) && exists i: nat :: IsSubmitted(legs, side, i) && legs[i].orderId == Some(orderId)
    ensures k < |indexes| && legs[indexes[k]].orderId == Some(orderId)
  {
    var i: nat :| IsSubmitted(legs, side, i) && legs[i].orderId == Some(orderId);
    assert i in indexes;
    k :| 0 <= k < |indexes| && indexes[k] == i;
  }

  lemma AmongReported(decision: nat, legs: seq<Leg>, side: Side, indexes: seq<nat>, reply: ReconcileReply, row: LedgerRow)
    requires Covering(legs, side, indexes)
    ensures RowAmong(decision, legs, side, indexes, reply, row) <==> ReportedRow(reply, legs, side, decision, row)
  {
    hide RowOf;
    if RowAmong(decision, legs, side, indexes, reply, row) {
      var k :| 0 <= k < |indexes| && RowOfOrder(decision, side, legs[indexes[k]].orderId.value, reply, row);
      var orderId := legs[indexes[k]].orderId.value;
      assert indexes[k] in indexes;
      var record := reply.reports[orderId].history.value;
      var fill :| fill in record.fills && RowOf(row, side, decision, orderId, fill);
      assert Recorded(reply, legs, side, orderId, record);
      assert ReportedFill(reply, legs, side, orderId, fill);
    }
    if ReportedRow(reply, legs, side, decision, row) {
      var orderId, fill :| ReportedFill(reply, legs, side, orderId, fill) && RowOf(row, side, decision, orderId, fill);
      var record :| Recorded(reply, legs, side, orderId, record) && fill in record.fills;
      var k := IndexOf(legs, side, indexes, orderId);
      assert RowOfOrder(decision, side, legs[indexes[k]].orderId.value, reply, row);
    }
  }

  // The fills of a phase are applied exactly if they are usable and none conflicts; then they are
  // booked, and nothing else has changed.
  lemma FillsApply(w: World, decision: nat, legs: seq<Leg>, side: Side, indexes: seq<nat>, reply: ReconcileReply)
    requires DistinctFills(w.db.ledger) && Covering(legs, side, indexes)
    ensures var t := ApplyReports(w, decision, legs, side, indexes, reply);
            && (t.outcome.Ok? <==> RecordsUsable(reply, legs, side) && NoConflict(w.db.ledger, reply, legs, side, decision))
            && (t.outcome.Ok? ==>
                  var next := At(w, t.worlds);
                  && FillsBooked(w.db, next.db, reply, legs, side, decision) && next.posts == w.posts
                  && next.db == w.db.(machine := w.db.machine.(account := next.db.machine.account), ledger := next.db.ledger))
  {
    hide ApplyReports, ReportRows, ReportUsable, RecordsUsable, ReportedRow, Applies;
    ReportsApply(w, decision, legs, side, indexes, reply);
    ReportsAre(decision, legs, side, indexes, reply);
    if AllUsable(legs, side, indexes, reply) {
      var t, rows := ApplyReports(w, decision, legs, side, indexes, reply), ReportRows(decision, legs, side, indexes, reply);
      AppliesFacts(w, t, rows);
      AgreeIsNoConflict(w.db.ledger, rows, reply, legs, side, decision);
      if t.outcome.Ok? {
        BookedIsFills(w.db, At(w, t.worlds).db, rows, reply, legs, side, decision);
      }
    }
  }

  lemma AgreeIsNoConflict(ledger: seq<LedgerRow>, rows: seq<LedgerRow>, reply: ReconcileReply, legs: seq<Leg>, side: Side, decision: nat)
    requires forall row :: row in rows <==> ReportedRow(reply, legs, side, decision, row)
    ensures Agree(ledger, rows) <==> NoConflict(ledger, reply, legs, side, decision)
  {
    hide ReportedRow;
    if NoConflict(ledger, reply, legs, side, decision) {
      forall row, old_ | row in rows && old_ in ledger && old_.event.key == row.event.key ensures old_ == row {
        assert ReportedRow(reply, legs, side, decision, row);
      }
      forall a, b | a in rows && b in rows && a.event.key == b.event.key ensures a == b {
        assert ReportedRow(reply, legs, side, decision, a) && ReportedRow(reply, legs, side, decision, b);
      }
    }
    if Agree(ledger, rows) {
      forall a, b | ReportedRow(reply, legs, side, decision, a) && (b in ledger || ReportedRow(reply, legs, side, decision, b))
                    && a.event.key == b.event.key ensures a == b
      {
        assert a in rows;
      }
    }
  }

  lemma BookedIsFills(db: Db, next: Db, rows: seq<LedgerRow>, reply: ReconcileReply, legs: seq<Leg>, side: Side, decision: nat)
    requires Booked(db, next, rows) && RecordsUsable(reply, legs, side)
    requires forall row :: row in rows <==> ReportedRow(reply, legs, side, decision, row)
    ensures FillsBooked(db, next, reply, legs, side, decision)
  {
    hide EventOf, Bookable, ReportedFill;
    forall orderId, fill | ReportedFill(reply, legs, side, orderId, fill)
      ensures exists row :: row in next.ledger && RowOf(row, side, decision, orderId, fill)
    {
      FillBookable(reply, legs, side, orderId, fill);
      NormalizedFill(orderId, side, fill);
      var row := LedgerRow(NormalizeFill(orderId, side, fill).value, decision);
      assert RowOf(row, side, decision, orderId, fill);
      assert ReportedRow(reply, legs, side, decision, row);
    }
    if next.ledger[|db.ledger|..] == [] {
      assert next.ledger == db.ledger;
    }
  }

  lemma FillBookable(reply: ReconcileReply, legs: seq<Leg>, side: Side, orderId: nat, fill: RawFill)
    requires RecordsUsable(reply, legs, side) && ReportedFill(reply, legs, side, orderId, fill)
    ensures Bookable(fill)
  {
    hide Bookable;
    var record :| Recorded(reply, legs, side, orderId, record) && fill in record.fills;
    assert AllBookable(record.fills);
  }

  /* ---- What is marked ---- */

  lemma OneMarked(legs: seq<Leg>, side: Side, indexes: seq<nat>, reply: ReconcileReply, i: nat)
    requires Covering(legs, side, indexes) && IsSubmitted(legs, side, i)
    ensures i in ReportedStatuses(legs, side, reply) && legs[i].orderId.Some?
    ensures StatusReported(reply, legs[i].orderId.value, ReportedStatuses(legs, side, reply)[i])
    ensures ReportedStatuses(legs, side, reply)[i] in RECONCILED
  {
    assert i in indexes;
    var k :| 0 <= k < |indexes| && indexes[k] == i;
  }

  // Legs after marking, told by the map of statuses.
  ghost predicate MarkedBy(legs: seq<Leg>, next: seq<Leg>, side: Side, statuses: map<nat, LegStatus>) {
    && |next| == |legs|
    && (forall i: nat :: i in statuses <==> IsSubmitted(legs, side, i))
    && forall i :: 0 <= i < |legs| ==> next[i] == if i in statuses then legs[i].(status := statuses[i]) else legs[i]
  }

  lemma StatusesMark(legs: seq<Leg>, side: Side, indexes: seq<nat>, reply: ReconcileReply)
    requires Covering(legs, side, indexes)
    ensures var statuses := ReportedStatuses(legs, side, reply); var next := WithStatuses(legs, statuses);
            && statuses.Values <= RECONCILED && MarkedBy(legs, next, side, statuses)
            && LegsMarked(legs, next, side, reply)
  {
    hide StatusReported, Covering;
    var statuses := ReportedStatuses(legs, side, reply);
    var next := WithStatuses(legs, statuses);
    forall i | 0 <= i < |legs| && IsSubmitted(legs, side, i)
      ensures legs[i].orderId.Some? && StatusReported(reply, legs[i].orderId.value, statuses[i])
      ensures i in statuses && statuses[i] in RECONCILED
    {
      OneMarked(legs, side, indexes, reply, i);
    }
    forall v | v in statuses.Values ensures v in RECONCILED {
      var i :| i in statuses && statuses[i] == v;
      assert IsSubmitted(legs, side, i);
    }
  }

  // The values of the map, told by the legs.
  lemma ValuesMark(legs: seq<Leg>, next: seq<Leg>, side: Side, statuses: map<nat, LegStatus>)
    requires MarkedBy(legs, next, side, statuses) && statuses.Values <= RECONCILED
    ensures forall v: LegStatus :: !v.Planned? ==> (v in statuses.Values <==> SomeIs(next, side, v))
    ensures SomeIs(next, side, Planned) <==> SomeIs(legs, side, Planned)
    ensures statuses.Keys != {} ==> (statuses.Values == {LegFilled} <==> AllFilled(next, side))
  {
    forall i | i in statuses ensures statuses[i] in RECONCILED {
      assert statuses[i] in statuses.Values;
    }
    forall v: LegStatus | v != Planned ensures v in statuses.Values <==> SomeIs(next, side, v) {
      if v in statuses.Values {
        var i :| i in statuses && statuses[i] == v;
        assert IsSubmitted(legs, side, i) && next[i].status == v;
      }
      if SomeIs(next, side, v) {
        var i :| 0 <= i < |next| && next[i].spec.side == side && next[i].status == v;
        assert IsSubmitted(legs, side, i) && statuses[i] == v;
      }
    }
    if SomeIs(next, side, Planned) {
      var i :| 0 <= i < |next| && next[i].spec.side == side && next[i].status == Planned;
      assert i !in statuses && legs[i] == next[i];
    }
    if SomeIs(legs, side, Planned) {
      var i :| 0 <= i < |legs| && legs[i].spec.side == side && legs[i].status == Planned;
      assert i !in statuses && legs[i] == next[i];
    }
    if statuses.Values == {LegFilled} {
      forall i | 0 <= i < |next| && next[i].spec.side == side && !next[i].status.Planned? ensures next[i].status.LegFilled? {
        assert IsSubmitted(legs, side, i) && statuses[i] in statuses.Values;
      }
    }
    if statuses.Keys != {} && AllFilled(next, side) {
      forall i | i in statuses ensures statuses[i].LegFilled? {
        assert IsSubmitted(legs, side, i) && next[i].status == statuses[i];
      }
      OnlyFilled(statuses);
    }
  }

  // A new record of one workflow, with the money left alone.
  ghost predicate Rewrites(w: World, next: World, id: nat, wf: Workflow) {
    && next.posts == w.posts && next.db.workflows == w.db.workflows[id := wf] && next.db.ledger == w.db.ledger
    && SameMoney(w.db.machine.account, next.db.machine.account)
  }

  ghost predicate SameMoney(a: Account, b: Account) {
    b.cash == a.cash && b.debt == a.debt && b.fees == a.fees
  }

  lemma MoveRewrites(w: World, id: nat, wf: Workflow, suffix: Suffix, to: ExecState)
    ensures var r := MoveAndCommit(Put(w.db, id, wf), id, suffix, to);
            (r.Ok? ==> Rewrites(w, w.(db := r.value), id, wf)) && r != Err(CashBoundary)
  {
  }

  ghost predicate Marked(w: World, id: nat, side: Side, reply: ReconcileReply, next: World)
    requires id in w.db.workflows
  {
    var wf := w.db.workflows[id];
    && id in next.db.workflows
    && var after := next.db.workflows[id];
       && Rewrites(w, next, id, after)
       && after.plan == wf.plan && LegsMarked(wf.legs, after.legs, side, reply)
       && Stands(side, after.legs, next.db.machine.account, after.status, after.phase)
       && (AllFilled(after.legs, side) ==> reply.positionsMatch)
  }

  lemma SellMarked(w: World, id: nat, indexes: seq<nat>, reply: ReconcileReply)
    requires id in w.db.workflows && Covering(w.db.workflows[id].legs, Sell, indexes) && indexes != []
    ensures var legs := w.db.workflows[id].legs;
            var t := MarkSellReported(w, id, ReportedStatuses(legs, Sell, reply), reply);
            && t.outcome != Err(CashBoundary)
            && (t.outcome.Ok? ==> |t.worlds| == 1 && Marked(w, id, Sell, reply, t.worlds[0]))
  {
    hide MoveAndCommit, LegsMarked, SomeIs, AllFilled, ReportedStatuses, Covering, MarkedBy;
    var wf := w.db.workflows[id];
    var statuses := ReportedStatuses(wf.legs, Sell, reply);
    var v, legs := SellVerdict(statuses), WithStatuses(wf.legs, statuses);
    StatusesMark(wf.legs, Sell, indexes, reply);
    ValuesMark(wf.legs, legs, Sell, statuses);
    ReportedKeys(wf.legs, Sell, indexes, reply);
    MoveRewrites(w, id, Workflow(wf.plan, v.status, v.phase, legs), SellReconcile(v.exec), v.exec);
    FilledOnly(legs, Sell);
  }

  lemma ReportedKeys(legs: seq<Leg>, side: Side, indexes: seq<nat>, reply: ReconcileReply)
    requires Covering(legs, side, indexes) && indexes != []
    ensures ReportedStatuses(legs, side, reply).Keys != {}
  {
    assert indexes[0] in indexes;
    OneMarked(legs, side, indexes, reply, indexes[0]);
  }

  // Filled legs are neither failed nor unknown nor partly filled.
  lemma FilledOnly(legs: seq<Leg>, side: Side)
    ensures AllFilled(legs, side) ==> !SomeIs(legs, side, LegUnknown) && !SomeIs(legs, side, LegFailed) && !SomeIs(legs, side, LegPartial)
  {
  }

  lemma ProgressMarks(
    w: World, id: nat, indexes: seq<nat>, reply: ReconcileReply, status: WorkflowStatus, suffix: Suffix, to: ExecState)
    requires id in w.db.workflows && w.db.workflows[id].phase.BuyPhase?
    requires Covering(w.db.workflows[id].legs, Buy, indexes) && indexes != []
    requires var wf := w.db.workflows[id]; var legs := WithStatuses(wf.legs, ReportedStatuses(wf.legs, Buy, reply));
             && Stands(Buy, legs, w.db.machine.account, status, BuyPhase)
             && (AllFilled(legs, Buy) ==> reply.positionsMatch)
    ensures var r := PersistBuyProgress(w.db, id, ReportedStatuses(w.db.workflows[id].legs, Buy, reply), status, suffix, to);
            && r != Err(CashBoundary)
            && (r.Ok? ==>
                  && Marked(w, id, Buy, reply, w.(db := r.value)) && SameMoney(w.db.machine.account, r.value.machine.account)
                  && r.value.workflows[id].legs ==
                     WithStatuses(w.db.workflows[id].legs, ReportedStatuses(w.db.workflows[id].legs, Buy, reply)))
  {
    hide MoveAndCommit, LegsMarked, SomeIs, AllFilled, ReportedStatuses, Covering, MarkedBy;
    var wf := w.db.workflows[id];
    var legs := WithStatuses(wf.legs, ReportedStatuses(wf.legs, Buy, reply));
    StatusesMark(wf.legs, Buy, indexes, reply);
    MoveRewrites(w, id, Workflow(wf.plan, status, BuyPhase, legs), suffix, to);
  }

  // With every buy submitted and reported filled, the map of the last step says the same.
  lemma AllFilledMarks(w: World, id: nat, indexes: seq<nat>, reply: ReconcileReply)
    requires id in w.db.workflows && Covering(w.db.workflows[id].legs, Buy, indexes) && indexes != []
    requires var wf := w.db.workflows[id];
             && AllFilled(WithStatuses(wf.legs, ReportedStatuses(wf.legs, Buy, reply)), Buy)
             && !SomeIs(wf.legs, Buy, Planned)
    requires CashOk(w.db.machine.account) && reply.positionsMatch
    ensures var r := MarkBuy(w.db, id, map i | i in Indexes(w.db.workflows[id].legs, Buy) :: LegFilled);
            && r != Err(CashBoundary)
            && (r.Ok? ==>
                  && Marked(w, id, Buy, reply, w.(db := r.value)) && SameMoney(w.db.machine.account, r.value.machine.account)
                  && r.value.workflows[id].legs ==
                     WithStatuses(w.db.workflows[id].legs, ReportedStatuses(w.db.workflows[id].legs, Buy, reply)))
  {
    hide MoveAndCommit, MarkBuy, LegsMarked, SomeIs, AllFilled, ReportedStatuses, Stands, WithStatuses, MarkedBy;
    var wf := w.db.workflows[id];
    var statuses: map<nat, LegStatus> := map i | i in Indexes(wf.legs, Buy) :: LegFilled;
    SameMap(wf.legs, indexes, reply, statuses);
    hide Covering, Indexes;
    StatusesMark(wf.legs, Buy, indexes, reply);
    var reported := WithStatuses(wf.legs, ReportedStatuses(wf.legs, Buy, reply));
    ValuesMark(wf.legs, reported, Buy, ReportedStatuses(wf.legs, Buy, reply));
    CompleteStands(reported, w.db.machine.account);
    MarkBuyCompletes(w.db, id, statuses);
    MoveRewrites(w, id, Workflow(wf.plan, Complete, ReconcilePhase, reported), BuyReconcile(Idle), Idle);
  }

  lemma SameMap(legs: seq<Leg>, indexes: seq<nat>, reply: ReconcileReply, statuses: map<nat, LegStatus>)
    requires Covering(legs, Buy, indexes) && indexes != [] && !SomeIs(legs, Buy, Planned)
    requires AllFilled(WithStatuses(legs, ReportedStatuses(legs, Buy, reply)), Buy)
    requires statuses == map i | i in Indexes(legs, Buy) :: LegFilled
    ensures WithStatuses(legs, statuses) == WithStatuses(legs, ReportedStatuses(legs, Buy, reply))
    ensures statuses.Keys == Indexes(legs, Buy) && statuses.Values == {LegFilled}
  {
    hide LegsMarked, ReportedStatuses, Covering, AllFilled, SomeIs, MarkedBy;
    StatusesMark(legs, Buy, indexes, reply);
    var reported := ReportedStatuses(legs, Buy, reply);
    SameMarks(legs, WithStatuses(legs, reported), reported);
    assert WithStatuses(legs, statuses) == WithStatuses(legs, reported);
    SomeBuy(legs, indexes);
    assert statuses.Keys == Indexes(legs, Buy);
    OnlyFilled(statuses);
  }

  // When everything is filled the workflow is complete, or the marking is refused.
  lemma MarkBuyCompletes(db: Db, id: nat, statuses: map<nat, LegStatus>)
    requires id in db.workflows && statuses.Values == {LegFilled}
    ensures var w := db.workflows[id]; var r := MarkBuy(db, id, statuses);
            r == MoveAndCommit(Put(db, id, Workflow(w.plan, Complete, ReconcilePhase, WithStatuses(w.legs, statuses))), id, BuyReconcile(Idle), Idle)
            || r == Err(UnsupportedStatus) || r == Err(WrongPhase) || r == Err(NotReconcilable) || r == Err(NotCovered)
  {
    hide MoveAndCommit, WithStatuses, AllReconcilable, Indexes;
  }

  lemma SomeBuy(legs: seq<Leg>, indexes: seq<nat>)
    requires Covering(legs, Buy, indexes) && indexes != []
    ensures Indexes(legs, Buy) != {}
  {
    assert indexes[0] in indexes;
    assert indexes[0] in Indexes(legs, Buy);
  }

  lemma CompleteStands(legs: seq<Leg>, a: Account)
    requires AllFilled(legs, Buy) && !SomeIs(legs, Buy, Planned) && CashOk(a)
    ensures forall b :: SameMoney(a, b) ==> Stands(Buy, legs, b, Complete, ReconcilePhase)
  {
    FilledOnly(legs, Buy);
  }

  lemma SameMarks(legs: seq<Leg>, next: seq<Leg>, statuses: map<nat, LegStatus>)
    requires MarkedBy(legs, next, Buy, statuses) && AllFilled(next, Buy) && !SomeIs(legs, Buy, Planned)
    requires statuses.Values <= RECONCILED
    ensures forall i :: 0 <= i < |legs| ==> next[i] == if legs[i].spec.side.Buy? then legs[i].(status := LegFilled) else legs[i]
  {
    forall i | 0 <= i < |legs| ensures next[i] == if legs[i].spec.side.Buy? then legs[i].(status := LegFilled) else legs[i] {
      if legs[i].spec.side.Buy? {
        assert legs[i].status != Planned;
        assert IsSubmitted(legs, Buy, i) && statuses[i] in statuses.Values;
      }
    }
  }

  lemma BuyMarked(w: World, id: nat, indexes: seq<nat>, first: nat, reply: ReconcileReply)
    requires id in w.db.workflows && w.db.workflows[id].phase.BuyPhase?
    requires Covering(w.db.workflows[id].legs, Buy, indexes) && indexes != []
    ensures var legs := w.db.workflows[id].legs;
            var t := MarkBuyReported(w, id, legs, ReportedStatuses(legs, Buy, reply), first, reply);
            Finished(t) ==>
              && |t.worlds| == 1 && Marked(w, id, Buy, reply, t.worlds[0])
              && (t.outcome.Err? <==> Overdrawn(t.worlds[0].db.workflows[id].legs, t.worlds[0].db.machine.account))
  {
    hide PersistBuyProgress, MarkBuy, LegsMarked, SomeIs, ReportedStatuses, Covering, MarkedBy, Marked, AllFilled;
    var legs := w.db.workflows[id].legs;
    var statuses := ReportedStatuses(legs, Buy, reply);
    var next := WithStatuses(legs, statuses);
    StatusesMark(legs, Buy, indexes, reply);
    ValuesMark(legs, next, Buy, statuses);
    ReportedKeys(legs, Buy, indexes, reply);
    FilledOnly(next, Buy);
    PlannedSome(legs);
    if LegUnknown in statuses.Values {
      ProgressMarks(w, id, indexes, reply, ReconciliationRequired, BuyUnknown, ReconRequired);
    } else if LegFailed in statuses.Values {
      ProgressMarks(w, id, indexes, reply, Failed, BuyFailed, ExecFailed);
    } else if LegPartial in statuses.Values {
      ProgressMarks(w, id, indexes, reply, Active, BuyPartial, PartialFill);
    } else if statuses.Values != {LegFilled} {
      ProgressMarks(w, id, indexes, reply, Active, BuyStillPending, BuyPending);
    } else if reply.positionsMatch {
      if !CashOk(w.db.machine.account) {
        ProgressMarks(w, id, indexes, reply, ReconciliationRequired, BuyCashBreach, ReconRequired);
      } else if PlannedIndexes(legs, Buy) != [] {
        ProgressMarks(w, id, indexes, reply, Active, BuyLegFilled(first), BuyPending);
      } else {
        AllFilledMarks(w, id, indexes, reply);
      }
    }
  }

  // Every buy that went out is filled, and cash is below the boundary.
  ghost predicate Overdrawn(legs: seq<Leg>, a: Account) {
    AllFilled(legs, Buy) && !CashOk(a)
  }

  lemma PlannedSome(legs: seq<Leg>)
    ensures PlannedIndexes(legs, Buy) != [] <==> SomeIs(legs, Buy, Planned)
  {
    PlannedIndexesAre(legs, Buy);
    if PlannedIndexes(legs, Buy) != [] {
      assert PlannedIndexes(legs, Buy)[0] in PlannedIndexes(legs, Buy);
    }
    if SomeIs(legs, Buy, Planned) {
      var i :| 0 <= i < |legs| && legs[i].spec.side.Buy? && legs[i].status == Planned;
      assert i in PlannedIndexes(legs, Buy);
    }
  }

  /* ---- A whole reconciliation ---- */

  lemma MoneyKept(db: Db, mid: Db, next: Db, reply: ReconcileReply, legs: seq<Leg>, side: Side, decision: nat)
    requires FillsBooked(db, mid, reply, legs, side, decision)
    requires next.ledger == mid.ledger && SameMoney(mid.machine.account, next.machine.account)
    ensures FillsBooked(db, next, reply, legs, side, decision)
  {
    hide ReportedRow, ReportedFill, RowOf, Deltas, Fees;
  }

  lemma SubmittedCovers(legs: seq<Leg>, side: Side)
    requires !MissingOrderId(legs, SubmittedIndexes(legs, side))
    ensures Covering(legs, side, SubmittedIndexes(legs, side))
  {
    SubmittedIndexesAre(legs, side);
    var indexes := SubmittedIndexes(legs, side);
    forall k | 0 <= k < |indexes| ensures indexes[k] < |legs| && legs[indexes[k]].orderId.Some? {
      assert indexes[k] in indexes;
    }
  }

  // Fills first, then marks: what each does adds up.
  lemma BookThenMark(w: World, id: nat, side: Side, reply: ReconcileReply, mid: World, next: World)
    requires id in w.db.workflows && mid.posts == w.posts
    requires mid.db == w.db.(machine := w.db.machine.(account := mid.db.machine.account), ledger := mid.db.ledger)
    requires FillsBooked(w.db, mid.db, reply, w.db.workflows[id].legs, side, w.db.workflows[id].plan.decision)
    requires Marked(mid, id, side, reply, next)
    ensures Reconciled(w, id, side, reply, next)
  {
    hide FillsBooked, LegsMarked, Stands, AllFilled;
    var wf := w.db.workflows[id];
    MoneyKept(w.db, mid.db, next.db, reply, wf.legs, side, wf.plan.decision);
  }

  ghost function SideOf(wf: Workflow): Side {
    if wf.phase.SellPhase? then Sell else Buy
  }

  // Whatever the broker answered: a reconciliation that ended well has booked exactly the fills
  // reported for the submitted legs, marked exactly those legs as reported, and put the workflow
  // where they call for.  It stops for the cash, with all of that written, exactly when every buy
  // that went out is filled and cash is below the boundary.
  lemma ReconcileMakes(w: World, id: nat, reply: ReconcileReply)
    requires DistinctFills(w.db.ledger)
    ensures var t := ReconcileCurrent(w, id, reply);
            Finished(t) ==>
              && ActiveIn(w.db, id) && (w.db.workflows[id].phase.SellPhase? || w.db.workflows[id].phase.BuyPhase?)
              && var wf, next := w.db.workflows[id], At(w, t.worlds);
                 && Reconciled(w, id, SideOf(wf), reply, next)
                 && (t.outcome.Err? <==> wf.phase.BuyPhase? && Overdrawn(next.db.workflows[id].legs, next.db.machine.account))
  {
    hide LegsOf, AnyAmbiguous, PlannedIndexes, SubmittedIndexes, ApplyReports, MarkSellReported, MarkBuyReported,
      ReportedStatuses, MissingOrderId, SharedOrderId, FillsBooked, Reconciled, Covering, Marked, RecordsUsable, NoConflict, AllFilled;
    var t := ReconcileCurrent(w, id, reply);
    if Finished(t) {
      var wf := w.db.workflows[id];
      var side := SideOf(wf);
      var indexes := SubmittedIndexes(wf.legs, side);
      SubmittedCovers(wf.legs, side);
      FillsApply(w, wf.plan.decision, wf.legs, side, indexes, reply);
      var fills := ApplyReports(w, wf.plan.decision, wf.legs, side, indexes, reply);
      ApplyReportsErrors(w, wf.plan.decision, wf.legs, side, indexes, reply);
      var mid := At(w, fills.worlds);
      var statuses := ReportedStatuses(wf.legs, side, reply);
      if side.Sell? {
        SellMarked(mid, id, indexes, reply);
        EndThen(w, fills.worlds, MarkSellReported(mid, id, statuses, reply).worlds);
      } else {
        BuyMarked(mid, id, indexes, indexes[0], reply);
        EndThen(w, fills.worlds, MarkBuyReported(mid, id, wf.legs, statuses, indexes[0], reply).worlds);
      }
      BookThenMark(w, id, side, reply, mid, At(w, t.worlds));
    }
  }

  /* ---- When it finishes ---- */

  lemma MarkSellIs(db: Db, id: nat, statuses: map<nat, LegStatus>)
    requires ActiveIn(db, id) && db.workflows[id].phase.SellPhase? && statuses.Values <= RECONCILED
    requires statuses.Keys == Indexes(db.workflows[id].legs, Sell) && statuses.Keys != {}
    requires AllReconcilable(db.workflows[id].legs, Sell)
    ensures var w, v := db.workflows[id], SellVerdict(statuses);
            MarkSell(db, id, statuses) ==
            MoveAndCommit(Put(db, id, Workflow(w.plan, v.status, v.phase, WithStatuses(w.legs, statuses))), id, SellReconcile(v.exec), v.exec)
  {
    hide MoveAndCommit, WithStatuses, AllReconcilable, Indexes, SellVerdict;
  }

  lemma MarkSellCommits(db: Db, id: nat, statuses: map<nat, LegStatus>)
    requires Inv(db) && ActiveIn(db, id) && db.workflows[id].phase.SellPhase? && statuses.Values <= RECONCILED
    requires statuses.Keys == Indexes(db.workflows[id].legs, Sell) && statuses.Keys != {}
    requires AllReconcilable(db.workflows[id].legs, Sell)
    ensures MarkSell(db, id, statuses).Ok?
  {
    hide Inv, MarkSell, MoveAndCommit, LegsOk, Fits, SellVerdict, Indexes, AllReconcilable, WithStatuses;
    var w, v := db.workflows[id], SellVerdict(statuses);
    PlanIs(db, id);
    SellFits(w, statuses, db.machine.exec, db.machine.account);
    SellsHaveIds(w.legs, statuses);
    StatusesOk(w.legs, statuses);
    MarkSellIs(db, id, statuses);
    var next := Workflow(w.plan, v.status, v.phase, WithStatuses(w.legs, statuses));
    if v.status.Active? && v.phase.SellPhase? {
      ExecutionKeeps.NotIdle(db, id);
      Repeats(db, id, next, SellReconcile(v.exec), v.exec);
    } else {
      Advances(db, id, next, SellReconcile(v.exec), v.exec);
    }
  }

  lemma MarkBuyIs(db: Db, id: nat, statuses: map<nat, LegStatus>)
    requires ActiveIn(db, id) && db.workflows[id].phase.BuyPhase? && statuses.Values == {LegFilled}
    requires statuses.Keys == Indexes(db.workflows[id].legs, Buy) && AllReconcilable(db.workflows[id].legs, Buy)
    requires statuses.Keys != {}
    ensures var w := db.workflows[id];
            MarkBuy(db, id, statuses) ==
            MoveAndCommit(Put(db, id, Workflow(w.plan, Complete, ReconcilePhase, WithStatuses(w.legs, statuses))), id, BuyReconcile(Idle), Idle)
  {
    hide MoveAndCommit, WithStatuses, AllReconcilable, Indexes;
  }

  lemma MarkBuyCommits(db: Db, id: nat)
    requires Inv(db) && ActiveIn(db, id) && db.workflows[id].phase.BuyPhase?
    requires Indexes(db.workflows[id].legs, Buy) != {} && AllReconcilable(db.workflows[id].legs, Buy)
    ensures MarkBuy(db, id, map i | i in Indexes(db.workflows[id].legs, Buy) :: LegFilled).Ok?
  {
    hide Inv, MoveAndCommit, MarkBuy, LegsOk, WithStatuses, ActiveOk;
    var w := db.workflows[id];
    PlanIs(db, id);
    var statuses: map<nat, LegStatus> := map i | i in Indexes(w.legs, Buy) :: LegFilled;
    assert statuses.Keys == Indexes(w.legs, Buy);
    OnlyFilled(statuses);
    forall i | i in statuses && i < |w.legs| ensures w.legs[i].orderId.Some? {
      assert Reconcilable(w.legs[i]);
    }
    StatusesOk(w.legs, statuses);
    MarkBuyIs(db, id, statuses);
    Advances(db, id, Workflow(w.plan, Complete, ReconcilePhase, WithStatuses(w.legs, statuses)), BuyReconcile(Idle), Idle);
  }

  // A submitted leg of a live phase without an unanswered intent has an order id, and can be reconciled.
  lemma SubmittedLegs(db: Db, id: nat, side: Side)
    requires Inv(db) && ActiveIn(db, id) && PhaseOf(db.workflows[id].phase, side) && !SomeUnanswered(db.workflows[id].legs, side)
    ensures var legs := db.workflows[id].legs;
            && !AnyAmbiguous(LegsOf(legs, side))
            && (forall i :: 0 <= i < |legs| && IsSubmitted(legs, side, i) ==> Reconcilable(legs[i]))
            && !MissingOrderId(legs, SubmittedIndexes(legs, side))
  {
    hide AwaitsControl, KeysOk, Alone, LegsOf, SubmittedIndexes;
    PlanIs(db, id);
    var legs := db.workflows[id].legs;
    SideFacts(legs, side);
    SubmittedIndexesAre(legs, side);
    forall i | 0 <= i < |legs| && IsSubmitted(legs, side, i) ensures Reconcilable(legs[i]) {
      assert LegOk(legs[i]) && NotBad(legs[i]);
    }
    var indexes := SubmittedIndexes(legs, side);
    forall k | 0 <= k < |indexes| ensures indexes[k] < |legs| && legs[indexes[k]].orderId.Some? {
      assert indexes[k] in indexes;
    }
  }

  lemma {:induction false} SubmittedRise(legs: seq<Leg>, side: Side)
    ensures var p := SubmittedIndexes(legs, side); forall i, j :: 0 <= i < j < |p| ==> p[i] < p[j]
  {
    if legs != [] {
      SubmittedRise(DropLast(legs), side);
      SubmittedIndexesAre(DropLast(legs), side);
      var p := SubmittedIndexes(DropLast(legs), side);
      assert forall i :: 0 <= i < |p| ==> p[i] in p;
    }
  }

  // No two submitted legs of the side share an order id.
  ghost predicate OwnOrders(legs: seq<Leg>, side: Side) {
    forall i, j :: 0 <= i < j < |legs| && IsSubmitted(legs, side, i) && IsSubmitted(legs, side, j) ==> legs[i].orderId != legs[j].orderId
  }

  lemma OwnOrdersAre(legs: seq<Leg>, side: Side)
    requires Covering(legs, side, SubmittedIndexes(legs, side))
    ensures SharedOrderId(legs, SubmittedIndexes(legs, side)) <==> !OwnOrders(legs, side)
  {
    hide SubmittedIndexes;
    var indexes := SubmittedIndexes(legs, side);
    SubmittedRise(legs, side);
    if SharedOrderId(legs, indexes) {
      var i, j :| 0 <= i < j < |indexes| && OrderId(legs[indexes[i]]) == OrderId(legs[indexes[j]]);
      assert indexes[i] in indexes && indexes[j] in indexes;
      assert IsSubmitted(legs, side, indexes[i]) && IsSubmitted(legs, side, indexes[j]);
    }
    if !OwnOrders(legs, side) {
      var i, j :| 0 <= i < j < |legs| && IsSubmitted(legs, side, i) && IsSubmitted(legs, side, j) && legs[i].orderId == legs[j].orderId;
      assert i in indexes && j in indexes;
      var k :| 0 <= k < |indexes| && indexes[k] == i;
      var m :| 0 <= m < |indexes| && indexes[m] == j;
      assert k < m;
    }
  }

  // Every submitted leg of the side is reported FILLED.
  ghost predicate AllReportedFilled(reply: ReconcileReply, legs: seq<Leg>, side: Side) {
    forall i :: 0 <= i < |legs| && IsSubmitted(legs, side, i) ==>
      && legs[i].orderId.Some? && legs[i].orderId.value in reply.reports
      && reply.reports[legs[i].orderId.value].state.BrokerFilled?
  }

  lemma AllReportedFilledIs(reply: ReconcileReply, legs: seq<Leg>, side: Side, indexes: seq<nat>)
    requires Covering(legs, side, indexes) && indexes != []
    ensures ReportedStatuses(legs, side, reply).Values == {LegFilled} <==> AllReportedFilled(reply, legs, side)
  {
    hide Covering;
    var statuses := ReportedStatuses(legs, side, reply);
    ReportedKeys(legs, side, indexes, reply);
    forall i | 0 <= i < |legs| && IsSubmitted(legs, side, i)
      ensures i in statuses && legs[i].orderId.Some? && StatusReported(reply, legs[i].orderId.value, statuses[i])
    {
      OneMarked(legs, side, indexes, reply, i);
    }
    if statuses.Values == {LegFilled} {
      forall i | 0 <= i < |legs| && IsSubmitted(legs, side, i)
        ensures legs[i].orderId.value in reply.reports && reply.reports[legs[i].orderId.value].state.BrokerFilled?
      {
        assert statuses[i] in statuses.Values;
      }
    }
    if AllReportedFilled(reply, legs, side) {
      forall i | i in statuses ensures statuses[i].LegFilled? {
        assert IsSubmitted(legs, side, i);
      }
      OnlyFilled(statuses);
    }
  }

  lemma SellFinishes(w: World, id: nat, reply: ReconcileReply)
    requires Inv(w.db) && ActiveIn(w.db, id) && w.db.workflows[id].phase.SellPhase?
    requires var legs := w.db.workflows[id].legs;
             && !SomeUnanswered(legs, Sell) && !SomeIs(legs, Sell, Planned)
             && Covering(legs, Sell, SubmittedIndexes(legs, Sell)) && SubmittedIndexes(legs, Sell) != []
    ensures var legs := w.db.workflows[id].legs;
            MarkSellReported(w, id, ReportedStatuses(legs, Sell, reply), reply).outcome.Ok? <==>
            (AllReportedFilled(reply, legs, Sell) ==> reply.positionsMatch)
  {
    hide Inv, MarkSell, AllReportedFilled, SubmittedIndexes, SomeUnanswered;
    var legs := w.db.workflows[id].legs;
    var statuses := ReportedStatuses(legs, Sell, reply);
    AllReportedFilledIs(reply, legs, Sell, SubmittedIndexes(legs, Sell));
    ReportedKeys(legs, Sell, SubmittedIndexes(legs, Sell), reply);
    StatusesMark(legs, Sell, SubmittedIndexes(legs, Sell), reply);
    SubmittedLegs(w.db, id, Sell);
    forall i | 0 <= i < |legs| && legs[i].spec.side.Sell? ensures IsSubmitted(legs, Sell, i) {
      assert legs[i].status != Planned;
    }
    assert statuses.Keys == Indexes(legs, Sell);
    MarkSellCommits(w.db, id, statuses);
  }

  lemma BuyFinishes(w: World, id: nat, first: nat, reply: ReconcileReply)
    requires Inv(w.db) && ActiveIn(w.db, id) && w.db.workflows[id].phase.BuyPhase?
    requires var legs := w.db.workflows[id].legs;
             !SomeUnanswered(legs, Buy) && Covering(legs, Buy, SubmittedIndexes(legs, Buy)) && SubmittedIndexes(legs, Buy) != []
    ensures var legs := w.db.workflows[id].legs;
            Finished(MarkBuyReported(w, id, legs, ReportedStatuses(legs, Buy, reply), first, reply)) <==>
            (AllReportedFilled(reply, legs, Buy) ==> reply.positionsMatch)
  {
    hide Inv, MarkBuy, PersistBuyProgress, AllReportedFilled, SubmittedIndexes, SomeUnanswered, ReportedStatuses, BuyProgress, SomeIs;
    var legs := w.db.workflows[id].legs;
    var statuses := ReportedStatuses(legs, Buy, reply);
    AllReportedFilledIs(reply, legs, Buy, SubmittedIndexes(legs, Buy));
    ReportedKeys(legs, Buy, SubmittedIndexes(legs, Buy), reply);
    PlannedSome(legs);
    if LegUnknown in statuses.Values {
      BuyCommits(w.db, id, reply, ReconciliationRequired, BuyUnknown, ReconRequired);
    } else if LegFailed in statuses.Values {
      BuyCommits(w.db, id, reply, Failed, BuyFailed, ExecFailed);
    } else if LegPartial in statuses.Values {
      BuyCommits(w.db, id, reply, Active, BuyPartial, PartialFill);
    } else if statuses.Values != {LegFilled} {
      BuyCommits(w.db, id, reply, Active, BuyStillPending, BuyPending);
    } else if reply.positionsMatch {
      if !CashOk(w.db.machine.account) {
        BuyCommits(w.db, id, reply, ReconciliationRequired, BuyCashBreach, ReconRequired);
      } else if PlannedIndexes(legs, Buy) != [] {
        SomePlannedLeg(legs);
        BuyCommits(w.db, id, reply, Active, BuyLegFilled(first), BuyPending);
      } else {
        AllSubmitted(w.db, id);
        MarkBuyCommits(w.db, id);
      }
    }
  }

  lemma SomePlannedLeg(legs: seq<Leg>)
    requires SomeIs(legs, Buy, Planned)
    ensures exists i :: 0 <= i < |legs| && legs[i].status.Planned?
  {
    var i :| 0 <= i < |legs| && legs[i].spec.side.Buy? && legs[i].status == Planned;
    assert legs[i].status.Planned?;
  }

  lemma AllSubmitted(db: Db, id: nat)
    requires Inv(db) && ActiveIn(db, id) && db.workflows[id].phase.BuyPhase?
    requires var legs := db.workflows[id].legs;
             !SomeUnanswered(legs, Buy) && !SomeIs(legs, Buy, Planned) && SubmittedIndexes(legs, Buy) != []
    ensures Indexes(db.workflows[id].legs, Buy) != {} && AllReconcilable(db.workflows[id].legs, Buy)
  {
    hide Inv, SubmittedIndexes, SomeUnanswered;
    var legs := db.workflows[id].legs;
    SubmittedLegs(db, id, Buy);
    SubmittedIndexesAre(legs, Buy);
    var i := SubmittedIndexes(legs, Buy)[0];
    assert i in SubmittedIndexes(legs, Buy) && i in Indexes(legs, Buy);
    forall i | 0 <= i < |legs| && legs[i].spec.side.Buy? ensures Reconcilable(legs[i]) {
      assert legs[i].status != Planned;
      assert IsSubmitted(legs, Buy, i);
    }
  }

  lemma BuyCommits(db: Db, id: nat, reply: ReconcileReply, status: WorkflowStatus, suffix: Suffix, to: ExecState)
    requires Inv(db) && ActiveIn(db, id) && db.workflows[id].phase.BuyPhase?
    requires Covering(db.workflows[id].legs, Buy, SubmittedIndexes(db.workflows[id].legs, Buy))
    requires ReportedStatuses(db.workflows[id].legs, Buy, reply).Keys != {}
    requires var values := ReportedStatuses(db.workflows[id].legs, Buy, reply).Values;
             match status
             case Active =>
               && LegUnknown !in values && LegFailed !in values
               && (|| (suffix == BuyPartial && to == PartialFill && LegPartial in values)
                   || (suffix == BuyStillPending && to == BuyPending && values != {LegFilled})
                   || (suffix.BuyLegFilled? && to == BuyPending && values == {LegFilled} && CashOk(db.machine.account)
                       && exists i :: 0 <= i < |db.workflows[id].legs| && db.workflows[id].legs[i].status.Planned?))
             case Failed => suffix == BuyFailed && to == ExecFailed
             case ReconciliationRequired => suffix in {BuyUnknown, BuyCashBreach} && to == ReconRequired
             case Complete => false
    ensures PersistBuyProgress(db, id, ReportedStatuses(db.workflows[id].legs, Buy, reply), status, suffix, to).Ok?
  {
    hide Inv, PersistBuyProgress, ReportedStatuses, SubmittedIndexes;
    var wf := db.workflows[id];
    var statuses := ReportedStatuses(wf.legs, Buy, reply);
    CoveringIds(wf.legs, Buy, SubmittedIndexes(wf.legs, Buy));
    ReportedCover(wf, Buy, reply);
    PersistingKeeps(db, id, statuses, status, suffix, to);
  }

  lemma CoveringIds(legs: seq<Leg>, side: Side, indexes: seq<nat>)
    requires Covering(legs, side, indexes)
    ensures forall i :: 0 <= i < |legs| && legs[i].spec.side == side && !legs[i].status.Planned? ==> legs[i].orderId.Some?
  {
    forall i | 0 <= i < |legs| && legs[i].spec.side == side && !legs[i].status.Planned? ensures legs[i].orderId.Some? {
      assert IsSubmitted(legs, side, i) && i in indexes;
      var k :| 0 <= k < |indexes| && indexes[k] == i;
    }
  }

  // What a phase needs before it can be reconciled.
  ghost predicate Reconcilables(legs: seq<Leg>, side: Side) {
    && !SomeUnanswered(legs, side) && (side.Sell? ==> !SomeIs(legs, Sell, Planned))
    && (exists i :: 0 <= i < |legs| && IsSubmitted(legs, side, i))
  }

  // In a run: a reconciliation finishes exactly if the phase can be reconciled, the broker could be
  // read and its records are usable, no reported fill contradicts another or the ledger, no two
  // orders share an id, and with every submitted leg reported FILLED the positions match.
  lemma ReconcileFinishes(w: World, id: nat, reply: ReconcileReply)
    requires Good(w) && DistinctFills(w.db.ledger) && Reconciles(w.db, id)
    ensures Finished(ReconcileCurrent(w, id, reply)) <==>
            && ActiveIn(w.db, id) && (w.db.workflows[id].phase.SellPhase? || w.db.workflows[id].phase.BuyPhase?)
            && var wf := w.db.workflows[id]; var side := SideOf(wf);
               && Reconcilables(wf.legs, side) && reply.readable && RecordsUsable(reply, wf.legs, side)
               && NoConflict(w.db.ledger, reply, wf.legs, side, wf.plan.decision) && OwnOrders(wf.legs, side)
               && (AllReportedFilled(reply, wf.legs, side) ==> reply.positionsMatch)
  {
    hide Inv, PostsOk, Steps, LegsOf, AnyAmbiguous, PlannedIndexes, SubmittedIndexes, ApplyReports, MarkSellReported, MarkBuyReported, ReportedStatuses,
      MissingOrderId, SharedOrderId, RecordsUsable, NoConflict, Covering, AllReportedFilled, OwnOrders, FillsBooked, SomeUnanswered;
    if ActiveIn(w.db, id) && (w.db.workflows[id].phase.SellPhase? || w.db.workflows[id].phase.BuyPhase?) {
      var wf := w.db.workflows[id];
      var side := SideOf(wf);
      Readiness(w.db, id);
      var indexes := SubmittedIndexes(wf.legs, side);
      if Reconcilables(wf.legs, side) {
        SubmittedLegs(w.db, id, side);
        SubmittedCovers(wf.legs, side);
        OwnOrdersAre(wf.legs, side);
        FillsApply(w, wf.plan.decision, wf.legs, side, indexes, reply);
        ApplyReportsErrors(w, wf.plan.decision, wf.legs, side, indexes, reply);
        var fills := ApplyReports(w, wf.plan.decision, wf.legs, side, indexes, reply);
        var mid := At(w, fills.worlds);
        if fills.outcome.Ok? {
          MidGood(w, id, reply);
          if side.Sell? {
            SellMarked(mid, id, indexes, reply);
            SellFinishes(mid, id, reply);
          } else {
            BuyFinishes(mid, id, indexes[0], reply);
          }
        }
      }
    }
  }

  // The checks before the broker is read.
  lemma Readiness(db: Db, id: nat)
    requires ActiveIn(db, id) && (db.workflows[id].phase.SellPhase? || db.workflows[id].phase.BuyPhase?)
    ensures var legs, side := db.workflows[id].legs, SideOf(db.workflows[id]);
            Reconcilables(legs, side) <==>
            && !AnyAmbiguous(LegsOf(legs, side)) && !(side.Sell? && PlannedIndexes(legs, Sell) != []) && SubmittedIndexes(legs, side) != []
  {
    hide LegsOf, AnyAmbiguous, SubmittedIndexes, PlannedIndexes, SomeUnanswered;
    var legs, side := db.workflows[id].legs, SideOf(db.workflows[id]);
    SideFacts(legs, side);
    SubmittedIndexesAre(legs, side);
    PlannedIndexesAre(legs, Sell);
    if PlannedIndexes(legs, Sell) != [] {
      assert PlannedIndexes(legs, Sell)[0] in PlannedIndexes(legs, Sell);
    }
    if SomeIs(legs, Sell, Planned) {
      var i :| 0 <= i < |legs| && legs[i].spec.side.Sell? && legs[i].status == Planned;
      assert i in PlannedIndexes(legs, Sell);
    }
    if SubmittedIndexes(legs, side) != [] {
      var i := SubmittedIndexes(legs, side)[0];
      assert i in SubmittedIndexes(legs, side);
      assert IsSubmitted(legs, side, i);
    }
    if exists i :: 0 <= i < |legs| && IsSubmitted(legs, side, i) {
      var i :| 0 <= i < |legs| && IsSubmitted(legs, side, i);
      assert i in SubmittedIndexes(legs, side);
    }
  }

  lemma MidGood(w: World, id: nat, reply: ReconcileReply)
    requires Good(w) && Reconciles(w.db, id) && ActiveIn(w.db, id)
    requires w.db.workflows[id].phase.SellPhase? || w.db.workflows[id].phase.BuyPhase?
    requires var wf := w.db.workflows[id]; !MissingOrderId(wf.legs, SubmittedIndexes(wf.legs, SideOf(wf)))
    ensures var wf := w.db.workflows[id]; var side := SideOf(wf);
            Inv(At(w, ApplyReports(w, wf.plan.decision, wf.legs, side, SubmittedIndexes(wf.legs, side), reply).worlds).db)
  {
    hide Inv, PostsOk, Steps, ApplyReports, SubmittedIndexes, MissingOrderId;
    var wf := w.db.workflows[id];
    var side := SideOf(wf);
    SubmittedFillable(w.db, id, side);
    ApplyReportsSteps(w, id, side, SubmittedIndexes(wf.legs, side), reply);
    StepsKeepGood(w, ApplyReports(w, wf.plan.decision, wf.legs, side, SubmittedIndexes(wf.legs, side), reply).worlds);
  }
}
