// What a reconciliation books: exactly the fills that the broker reports for the legs submitted,
// each once.
module Booking {
  import opened Common
  import opened Capital
  import opened ExecutionTables
  import opened Executor
  import opened ExecutionSteps
  import opened CycleSteps

  /* ---- Rows booked on a ledger ---- */

  // No row contradicts a row of its fill, booked already or to be booked.
  ghost predicate Agree(ledger: seq<LedgerRow>, rows: seq<LedgerRow>) {
    && (forall row, old_ :: row in rows && old_ in ledger && old_.event.key == row.event.key ==> old_ == row)
    && (forall a, b :: a in rows && b in rows && a.event.key == b.event.key ==> a == b)
  }

  // The ledger has grown by exactly these rows, none twice, and the account by their sums.
  ghost predicate Booked(db: Db, next: Db, rows: seq<LedgerRow>) {
    && |db.ledger| <= |next.ledger| && next.ledger[..|db.ledger|] == db.ledger
    && DistinctFills(next.ledger)
    && (forall row :: row in next.ledger <==> row in db.ledger || row in rows)
    && Moved(db.machine.account, next.machine.account, next.ledger[|db.ledger|..])
    && next == db.(machine := db.machine.(account := next.machine.account), ledger := next.ledger)
  }

  ghost predicate Moved(a: Account, b: Account, news: seq<LedgerRow>) {
    && b.cash == a.cash + Deltas(news) && b.fees == a.fees + Fees(news)
    && b.revision == a.revision + |news|
    && b.debt == if news == [] then a.debt else Debt(b.cash)
  }

  lemma NothingBooked(db: Db)
    requires DistinctFills(db.ledger)
    ensures Agree(db.ledger, []) && Booked(db, db, [])
  {
    assert db.ledger[|db.ledger|..] == [];
  }

  lemma OneBooked(db: Db, event: FillEvent, decision: nat)
    requires DistinctFills(db.ledger)
    ensures var r, rows := ApplyFillEvent(db, event, decision), [LedgerRow(event, decision)];
            && (r.Ok? <==> Agree(db.ledger, rows))
            && (r.Ok? ==> Booked(db, r.value, rows))
  {
    var row, rows := LedgerRow(event, decision), [LedgerRow(event, decision)];
    match FindFill(db.ledger, event.key)
    case Some(found) =>
      forall old_ | old_ in db.ledger && old_.event.key == event.key ensures old_ == found {
      }
      assert found in db.ledger && row in rows;
      if found == row {
        NothingBooked(db);
      }
    case None =>
      var ledger := db.ledger + rows;
      assert ledger[|db.ledger|..] == rows;
      SumsOfOne(row);
  }

  lemma SumsOfOne(row: LedgerRow)
    ensures Deltas([row]) == row.event.delta && Fees([row]) == row.event.fee
  {
    assert DropLast([row]) == [];
  }

  lemma {:induction false} SumsOfTwo(a: seq<LedgerRow>, b: seq<LedgerRow>)
    ensures Deltas(a + b) == Deltas(a) + Deltas(b) && Fees(a + b) == Fees(a) + Fees(b)
  {
    if b == [] {
      assert a + b == a;
    } else {
      SumsOfTwo(a, DropLast(b));
      assert DropLast(a + b) == a + DropLast(b);
    }
  }

  lemma BookedTwice(db: Db, mid: Db, next: Db, first: seq<LedgerRow>, second: seq<LedgerRow>)
    requires Booked(db, mid, first) && Booked(mid, next, second)
    ensures Booked(db, next, first + second)
  {
    hide Moved;
    var n := |db.ledger|;
    assert next.ledger[n..] == mid.ledger[n..] + next.ledger[|mid.ledger|..];
    MovedTwice(db.machine.account, mid.machine.account, next.machine.account, mid.ledger[n..], next.ledger[|mid.ledger|..]);
    assert next.ledger[..n] == next.ledger[..|mid.ledger|][..n];
  }

  lemma MovedTwice(a: Account, b: Account, c: Account, first: seq<LedgerRow>, second: seq<LedgerRow>)
    requires Moved(a, b, first) && Moved(b, c, second)
    ensures Moved(a, c, first + second)
  {
    SumsOfTwo(first, second);
    hide Deltas, Fees;
    if second == [] {
      assert first + second == first;
    }
  }

  lemma AgreeTwice(db: Db, mid: Db, first: seq<LedgerRow>, second: seq<LedgerRow>)
    requires Booked(db, mid, first) && Agree(db.ledger, first)
    ensures Agree(db.ledger, first + second) <==> Agree(mid.ledger, second)
  {
    hide Moved;
    if Agree(mid.ledger, second) {
      forall a, b | a in first + second && b in first + second && a.event.key == b.event.key ensures a == b {
      }
    }
    if Agree(db.ledger, first + second) {
      forall row, old_ | row in second && old_ in mid.ledger && old_.event.key == row.event.key ensures old_ == row {
        assert row in first + second;
        assert old_ in first ==> old_ in first + second;
      }
      forall a, b | a in second && b in second && a.event.key == b.event.key ensures a == b {
        assert a in first + second && b in first + second;
      }
    }
  }

  lemma AgreeFirst(ledger: seq<LedgerRow>, first: seq<LedgerRow>, second: seq<LedgerRow>)
    requires Agree(ledger, first + second)
    ensures Agree(ledger, first)
  {
    assert forall row :: row in first ==> row in first + second;
  }

  /* ---- The fills of one order, and of all ---- */

  function RowsOf(events: seq<FillEvent>, decision: nat): seq<LedgerRow> {
    seq(|events|, i requires 0 <= i < |events| => LedgerRow(events[i], decision))
  }

  // Applying ends well exactly if no row contradicts another; then exactly these are booked.
  ghost predicate Applies(w: World, t: Trace<()>, rows: seq<LedgerRow>) {
    && (t.outcome.Ok? <==> Agree(w.db.ledger, rows))
    && (t.outcome.Ok? ==> Booked(w.db, At(w, t.worlds).db, rows) && At(w, t.worlds).posts == w.posts)
  }

  lemma {:induction false} EventsApply(w: World, events: seq<FillEvent>, decision: nat)
    requires DistinctFills(w.db.ledger)
    ensures Applies(w, ApplyEvents(w, events, decision), RowsOf(events, decision))
    decreases |events|
  {
    hide Agree, Booked, ApplyFillEvent;
    NothingBooked(w.db);
    if events == [] {
      assert RowsOf(events, decision) == [];
    } else {
      var head, rest := [LedgerRow(events[0], decision)], RowsOf(events[1..], decision);
      assert RowsOf(events, decision) == head + rest;
      OneBooked(w.db, events[0], decision);
      if ApplyFillEvent(w.db, events[0], decision).Ok? {
        var next := w.(db := ApplyFillEvent(w.db, events[0], decision).value);
        BookedDistinct(w.db, next.db, head);
        EventsApply(next, events[1..], decision);
        Composed(w, [next], head, ApplyEvents(next, events[1..], decision), rest);
      } else if Agree(w.db.ledger, head + rest) {
        AgreeFirst(w.db.ledger, head, rest);
      }
    }
  }

  lemma BookedDistinct(db: Db, next: Db, rows: seq<LedgerRow>)
    requires Booked(db, next, rows)
    ensures DistinctFills(next.ledger)
  {
  }

  lemma Composed(w: World, worlds: seq<World>, first: seq<LedgerRow>, t: Trace<()>, second: seq<LedgerRow>)
    requires Agree(w.db.ledger, first) && Booked(w.db, At(w, worlds).db, first) && At(w, worlds).posts == w.posts
    requires Applies(At(w, worlds), t, second)
    ensures Applies(w, Then(worlds, t), first + second)
  {
    hide Agree, Booked;
    AgreeTwice(w.db, At(w, worlds).db, first, second);
    EndThen(w, worlds, t.worlds);
    if t.outcome.Ok? {
      BookedTwice(w.db, At(w, worlds).db, At(w, worlds + t.worlds).db, first, second);
    }
  }

  ghost predicate ReportUsable(reply: ReconcileReply, side: Side, orderId: nat) {
    var history := ReportFor(reply, orderId).history;
    history.Some? ==> history.value.side == Some(side) && AllBookable(history.value.fills)
  }

  // The rows of the reported fills, leg by leg.
  ghost function ReportRows(decision: nat, legs: seq<Leg>, side: Side, indexes: seq<nat>, reply: ReconcileReply): seq<LedgerRow>
    requires forall k :: 0 <= k < |indexes| ==> indexes[k] < |legs| && ReportUsable(reply, side, OrderId(legs[indexes[k]]))
    decreases |indexes|
  {
    if indexes == [] then []
    else OrderRows(decision, side, OrderId(legs[indexes[0]]), reply) + ReportRows(decision, legs, side, indexes[1..], reply)
  }

  ghost function OrderRows(decision: nat, side: Side, orderId: nat, reply: ReconcileReply): seq<LedgerRow>
    requires ReportUsable(reply, side, orderId)
  {
    var history := ReportFor(reply, orderId).history;
    if history.None? then []
    else
      var order := HistoricalOrder(orderId, history.value.side, history.value.fills);
      OrderEvents(order);
      RowsOf(NormalizeOrderFills(order).value, decision)
  }

  lemma OrderStep(w: World, decision: nat, legs: seq<Leg>, side: Side, indexes: seq<nat>, reply: ReconcileReply)
    requires indexes != [] && indexes[0] < |legs| && DistinctFills(w.db.ledger)
    ensures var orderId, t := OrderId(legs[indexes[0]]), ApplyReports(w, decision, legs, side, indexes, reply);
            && (!ReportUsable(reply, side, orderId) ==> t.outcome.Err?)
            && (ReportUsable(reply, side, orderId) ==>
                  exists head: Trace<()> ::
                    && Applies(w, head, OrderRows(decision, side, orderId, reply))
                    && t == if head.outcome.Err? then head
                            else Then(head.worlds, ApplyReports(At(w, head.worlds), decision, legs, side, indexes[1..], reply)))
  {
    hide ApplyEvents, NormalizeOrderFills, Applies, AllBookable;
    var orderId := OrderId(legs[indexes[0]]);
    match ReportFor(reply, orderId).history
    case None =>
      NothingApplied(w);
      var rest := ApplyReports(w, decision, legs, side, indexes[1..], reply);
      assert Then([], rest) == rest;
      assert OrderRows(decision, side, orderId, reply) == [];
      var head: Trace<()> := Trace([], Ok(()));
      assert Applies(w, head, OrderRows(decision, side, orderId, reply));
    case Some(history) =>
      var order := HistoricalOrder(orderId, history.side, history.fills);
      OrderEvents(order);
      if ReportUsable(reply, side, orderId) {
        var events := NormalizeOrderFills(order).value;
        EventsApply(w, events, decision);
        assert Applies(w, ApplyEvents(w, events, decision), OrderRows(decision, side, orderId, reply));
      }
  }

  lemma NothingApplied(w: World)
    requires DistinctFills(w.db.ledger)
    ensures Applies(w, Trace([], Ok(())), [])
  {
    NothingBooked(w.db);
  }

  // Every submitted leg's report is usable.
  ghost predicate AllUsable(legs: seq<Leg>, side: Side, indexes: seq<nat>, reply: ReconcileReply)
    requires forall k :: 0 <= k < |indexes| ==> indexes[k] < |legs|
  {
    forall k :: 0 <= k < |indexes| ==> ReportUsable(reply, side, OrderId(legs[indexes[k]]))
  }

  lemma {:induction false} ReportsApply(w: World, decision: nat, legs: seq<Leg>, side: Side, indexes: seq<nat>, reply: ReconcileReply)
    requires DistinctFills(w.db.ledger) && forall k :: 0 <= k < |indexes| ==> indexes[k] < |legs|
    ensures var t := ApplyReports(w, decision, legs, side, indexes, reply);
            && (!AllUsable(legs, side, indexes, reply) ==> t.outcome.Err?)
            && (AllUsable(legs, side, indexes, reply) ==> Applies(w, t, ReportRows(decision, legs, side, indexes, reply)))
    decreases |indexes|
  {
    hide Agree, Booked, Applies, ReportUsable, OrderRows;
    if indexes == [] {
      NothingApplied(w);
    } else {
      var orderId, rest := OrderId(legs[indexes[0]]), indexes[1..];
      OrderStep(w, decision, legs, side, indexes, reply);
      assert AllUsable(legs, side, indexes, reply) <==> ReportUsable(reply, side, orderId) && AllUsable(legs, side, rest, reply);
      if ReportUsable(reply, side, orderId) {
        var rows := OrderRows(decision, side, orderId, reply);
        var head: Trace<()> :| Applies(w, head, rows) &&
          ApplyReports(w, decision, legs, side, indexes, reply) ==
          if head.outcome.Err? then head else Then(head.worlds, ApplyReports(At(w, head.worlds), decision, legs, side, rest, reply));
        AppliesFacts(w, head, rows);
        if head.outcome.Ok? {
          var next := At(w, head.worlds);
          BookedDistinct(w.db, next.db, rows);
          ReportsApply(next, decision, legs, side, rest, reply);
          if AllUsable(legs, side, rest, reply) {
            Composed(w, head.worlds, rows, ApplyReports(next, decision, legs, side, rest, reply),
                     ReportRows(decision, legs, side, rest, reply));
          }
        } else if AllUsable(legs, side, rest, reply) {
          StaysRefused(w, head, rows, ReportRows(decision, legs, side, rest, reply));
        }
      }
    }
  }

  lemma AppliesFacts(w: World, t: Trace<()>, rows: seq<LedgerRow>)
    requires Applies(w, t, rows)
    ensures t.outcome.Ok? <==> Agree(w.db.ledger, rows)
    ensures t.outcome.Ok? ==> Booked(w.db, At(w, t.worlds).db, rows) && At(w, t.worlds).posts == w.posts
  {
  }

  lemma StaysRefused(w: World, head: Trace<()>, rows: seq<LedgerRow>, more: seq<LedgerRow>)
    requires Applies(w, head, rows) && head.outcome.Err?
    ensures Applies(w, head, rows + more)
  {
    hide Agree, Booked;
    if Agree(w.db.ledger, rows + more) {
      AgreeFirst(w.db.ledger, rows, more);
    }
  }
}
