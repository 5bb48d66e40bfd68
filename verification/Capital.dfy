// src/sp1execution/state/capital_v04.py: broker fills become ledger rows and move the
// strategy's cash.  Ledger money is in whole cents; what the broker reports is real.
module Capital {
  import opened Common

  datatype Side = Sell | Buy

  datatype RawFee = RawFee(amount: real, euro: bool)

  datatype RawFill = RawFill(
    fillId: nat, filledAt: nat, wallet: Option<real>, euro: bool, fees: seq<RawFee>, fxRate: Option<real>)

  // The broker's record of one order; sides other than BUY and SELL are None.
  datatype HistoricalOrder = HistoricalOrder(orderId: nat, side: Option<Side>, fills: seq<RawFill>)

  datatype FillKey = FillKey(orderId: nat, fillId: nat)

  // delta and fee in cents; evidence is the fill the row was written for, field by field.
  datatype FillEvent = FillEvent(key: FillKey, side: Side, delta: int, fee: int, evidence: RawFill)

  datatype LedgerRow = LedgerRow(event: FillEvent, decision: nat)

  datatype Account = Account(revision: int, cash: int, debt: int, fees: int)

  datatype CapitalError = UnsupportedSide | NotEuro | MissingNetValue | BadFxRate | ConflictingFill

  // Round half up to cents, for an amount that is not negative.
  function Cents(x: real): int {
    (x * 100.0 + 0.5).Floor
  }

  function AbsReal(x: real): real {
    if x < 0.0 then -x else x
  }

  function FeeCost(fees: seq<RawFee>): real {
    if fees == [] then 0.0
    else FeeCost(DropLast(fees)) + if Last(fees).amount < 0.0 then -Last(fees).amount else 0.0
  }

  predicate Earlier(a: RawFill, b: RawFill) {
    a.filledAt < b.filledAt || (a.filledAt == b.filledAt && a.fillId <= b.fillId)
  }

  function NormalizeFill(orderId: nat, side: Side, fill: RawFill): Result<FillEvent, CapitalError> {
    if !fill.euro then Err(NotEuro)
    else if fill.wallet.None? then Err(MissingNetValue)
    else if exists i :: 0 <= i < |fill.fees| && !fill.fees[i].euro then Err(NotEuro)
    else if fill.fxRate.Some? && fill.fxRate.value <= 0.0 then Err(BadFxRate)
    else
      var cents := Cents(AbsReal(fill.wallet.value));
      Ok(FillEvent(FillKey(orderId, fill.fillId), side, if side.Buy? then -cents else cents,
                   Cents(FeeCost(fill.fees)), fill))
  }

  function NormalizeAll(orderId: nat, side: Side, fills: seq<RawFill>): Result<seq<FillEvent>, CapitalError> {
    if fills == [] then Ok([])
    else
      var before :- NormalizeAll(orderId, side, DropLast(fills));
      var event :- NormalizeFill(orderId, side, Last(fills));
      Ok(before + [event])
  }

  // normalize_order_fills
  function NormalizeOrderFills(order: HistoricalOrder): Result<seq<FillEvent>, CapitalError> {
    if order.side.None? then Err(UnsupportedSide)
    else NormalizeAll(order.orderId, order.side.value, Sort(Earlier, order.fills))
  }

  function FindFill(ledger: seq<LedgerRow>, key: FillKey): (r: Option<LedgerRow>)
    ensures r.Some? ==> r.value in ledger && r.value.event.key == key
    ensures r.None? ==> forall i :: 0 <= i < |ledger| ==> ledger[i].event.key != key
  {
    if ledger == [] then None
    else if Last(ledger).event.key == key then Some(Last(ledger))
    else FindFill(DropLast(ledger), key)
  }

  function Debt(cash: int): int {
    if cash < 0 then -cash else 0
  }

  // apply_fill_event on the account and the ledger: one commit.
  function ApplyFill(account: Account, ledger: seq<LedgerRow>, event: FillEvent, decision: nat):
    Result<(Account, seq<LedgerRow>), CapitalError>
  {
    match FindFill(ledger, event.key)
    case Some(row) => if row != LedgerRow(event, decision) then Err(ConflictingFill) else Ok((account, ledger))
    case None =>
      var cash := account.cash + event.delta;
      Ok((Account(account.revision + 1, cash, Debt(cash), account.fees + event.fee), ledger + [LedgerRow(event, decision)]))
  }

  /* ---- What normalisation gives ---- */

  lemma {:induction false} FeeCostNotNegative(fees: seq<RawFee>)
    ensures FeeCost(fees) >= 0.0
  {
    if fees != [] {
      FeeCostNotNegative(DropLast(fees));
    }
  }

  // Everything in euro, with a net value, and no exchange rate that is not positive.
  ghost predicate Bookable(fill: RawFill) {
    && fill.euro && fill.wallet.Some?
    && (forall i :: 0 <= i < |fill.fees| ==> fill.fees[i].euro)
    && (fill.fxRate.Some? ==> fill.fxRate.value > 0.0)
  }

  // The whole number of cents nearest to an amount, a half rounded up.
  ghost predicate IsCents(cents: int, x: real) {
    cents as real - 0.5 <= 100.0 * x < cents as real + 0.5
  }

  // What a fill is worth: its net value to the cent, spent by a buy and received by a sell, and
  // what was charged in fees.
  ghost predicate EventOf(e: FillEvent, orderId: nat, side: Side, fill: RawFill) {
    && e.key == FillKey(orderId, fill.fillId) && e.side == side && e.evidence == fill
    && fill.wallet.Some? && IsCents(if side.Buy? then -e.delta else e.delta, AbsReal(fill.wallet.value))
    && IsCents(e.fee, FeeCost(fill.fees))
  }

  // A fill is normalised exactly if it can be booked; the event is determined by what it says.
  lemma NormalizedFill(orderId: nat, side: Side, fill: RawFill)
    ensures NormalizeFill(orderId, side, fill).Ok? <==> Bookable(fill)
    ensures NormalizeFill(orderId, side, fill).Ok? ==>
              var e := NormalizeFill(orderId, side, fill).value;
              && EventOf(e, orderId, side, fill) && (forall other :: EventOf(other, orderId, side, fill) ==> other == e)
              && e.fee >= 0 && (side.Buy? ==> e.delta <= 0) && (side.Sell? ==> e.delta >= 0)
  {
    FeeCostNotNegative(fill.fees);
    NearestCent(FeeCost(fill.fees));
    if fill.wallet.Some? {
      NearestCent(AbsReal(fill.wallet.value));
    }
    hide FeeCost, Cents;
    if Bookable(fill) {
      var e := NormalizeFill(orderId, side, fill).value;
      forall other | EventOf(other, orderId, side, fill) ensures other == e {
        OneCents(other.fee, e.fee, FeeCost(fill.fees));
        OneCents(if side.Buy? then -other.delta else other.delta, if side.Buy? then -e.delta else e.delta, AbsReal(fill.wallet.value));
      }
    }
  }

  lemma NearestCent(x: real)
    requires x >= 0.0
    ensures Cents(x) >= 0 && IsCents(Cents(x), x)
  {
    var cents := Cents(x);
    assert cents as real <= x * 100.0 + 0.5 < cents as real + 1.0;
  }

  lemma OneCents(a: int, b: int, x: real)
    requires IsCents(a, x) && IsCents(b, x)
    ensures a == b
  {
  }

  // The fee cost is the sum of the amounts charged; credits are no cost.
  lemma {:induction false} FeeCostOfCharges(fees: seq<RawFee>, more: seq<RawFee>)
    ensures FeeCost(fees + more) == FeeCost(fees) + FeeCost(more)
    ensures (forall i :: 0 <= i < |more| ==> more[i].amount >= 0.0) ==> FeeCost(more) == 0.0
    ensures |more| == 1 && more[0].amount < 0.0 ==> FeeCost(more) == -more[0].amount
  {
    if more == [] {
      assert fees + more == fees;
    } else {
      FeeCostOfCharges(fees, DropLast(more));
      assert DropLast(fees + more) == fees + DropLast(more);
    }
  }

  lemma {:induction false} NormalizedAll(orderId: nat, side: Side, fills: seq<RawFill>)
    requires NormalizeAll(orderId, side, fills).Ok?
    ensures var events := NormalizeAll(orderId, side, fills).value;
            && |events| == |fills|
            && forall i :: 0 <= i < |fills| ==> NormalizeFill(orderId, side, fills[i]) == Ok(events[i])
  {
    if fills != [] {
      NormalizedAll(orderId, side, DropLast(fills));
    }
  }

  lemma EarlierIsTotal()
    ensures TotalOrder(Earlier)
  {
  }

  ghost function Evidences(events: seq<FillEvent>): seq<RawFill> {
    seq(|events|, i requires 0 <= i < |events| => events[i].evidence)
  }

  ghost predicate AllBookable(fills: seq<RawFill>) {
    forall fill :: fill in fills ==> Bookable(fill)
  }

  lemma {:induction false} NormalizedIff(orderId: nat, side: Side, fills: seq<RawFill>)
    ensures NormalizeAll(orderId, side, fills).Ok? <==> AllBookable(fills)
  {
    hide NormalizeFill, Bookable;
    if fills != [] {
      assert fills == DropLast(fills) + [Last(fills)];
      NormalizedIff(orderId, side, DropLast(fills));
      NormalizedFill(orderId, side, Last(fills));
    }
  }

  // An order is normalised exactly if it is a buy or a sell and all its fills can be booked.  There is
  // then one event for every fill of the order, by time of the fill and then by its id.
  lemma OrderEvents(order: HistoricalOrder)
    ensures NormalizeOrderFills(order).Ok? <==> order.side.Some? && AllBookable(order.fills)
    ensures NormalizeOrderFills(order) == Err(UnsupportedSide) <==> order.side.None?
    ensures NormalizeOrderFills(order).Ok? ==>
              var events := NormalizeOrderFills(order).value;
              && |events| == |order.fills| && multiset(Evidences(events)) == multiset(order.fills)
              && (forall i :: 0 <= i < |events| ==> EventOf(events[i], order.orderId, order.side.value, events[i].evidence))
              && forall i, j :: 0 <= i < j < |events| ==>
                   var a, b := events[i].evidence, events[j].evidence;
                   a.filledAt < b.filledAt || (a.filledAt == b.filledAt && a.fillId <= b.fillId)
  {
    hide NormalizeFill, Sort, Bookable, EventOf;
    var fills := Sort(Earlier, order.fills);
    SortMultiset(Earlier, order.fills);
    EarlierIsTotal();
    SortSorts(Earlier, order.fills);
    forall fill ensures fill in fills <==> fill in order.fills {
      SortMembers(Earlier, order.fills, fill);
    }
    if order.side.Some? {
      var side := order.side.value;
      NormalizedIff(order.orderId, side, fills);
      NormalizedErrors(order.orderId, side, fills);
      if AllBookable(fills) {
        var events := NormalizeAll(order.orderId, side, fills).value;
        NormalizedAll(order.orderId, side, fills);
        forall i | 0 <= i < |events| ensures EventOf(events[i], order.orderId, side, fills[i]) && events[i].evidence == fills[i] {
          NormalizedFill(order.orderId, side, fills[i]);
          EventIsOf(events[i], order.orderId, side, fills[i]);
        }
        assert Evidences(events) == fills;
      }
    }
  }

  lemma EventIsOf(e: FillEvent, orderId: nat, side: Side, fill: RawFill)
    requires EventOf(e, orderId, side, fill)
    ensures e.evidence == fill && e.key.orderId == orderId && e.side == side
  {
  }

  lemma {:induction false} NormalizedErrors(orderId: nat, side: Side, fills: seq<RawFill>)
    ensures NormalizeAll(orderId, side, fills) != Err(UnsupportedSide)
  {
    if fills != [] {
      NormalizedErrors(orderId, side, DropLast(fills));
    }
  }

  // The sign of an event is that of its side.
  lemma EventSigns(order: HistoricalOrder)
    requires NormalizeOrderFills(order).Ok?
    ensures order.side.Some?
    ensures forall i :: 0 <= i < |NormalizeOrderFills(order).value| ==>
              var e := NormalizeOrderFills(order).value[i];
              && e.key.orderId == order.orderId && e.side == order.side.value
              && (e.side.Buy? ==> e.delta <= 0) && (e.side.Sell? ==> e.delta >= 0)
  {
    hide NormalizeFill, Sort, Bookable, EventOf;
    var fills, side := Sort(Earlier, order.fills), order.side.value;
    var events := NormalizeOrderFills(order).value;
    NormalizedAll(order.orderId, side, fills);
    forall i | 0 <= i < |events|
      ensures events[i].key.orderId == order.orderId && events[i].side == side
      ensures (side.Buy? ==> events[i].delta <= 0) && (side.Sell? ==> events[i].delta >= 0)
    {
      NormalizedFill(order.orderId, side, fills[i]);
      EventIsOf(events[i], order.orderId, side, fills[i]);
    }
  }

  /* ---- Deliveries ---- */

  function Deltas(ledger: seq<LedgerRow>): int {
    if ledger == [] then 0 else Deltas(DropLast(ledger)) + Last(ledger).event.delta
  }

  function Fees(ledger: seq<LedgerRow>): int {
    if ledger == [] then 0 else Fees(DropLast(ledger)) + Last(ledger).event.fee
  }

  ghost predicate DistinctFills(ledger: seq<LedgerRow>) {
    forall i, j :: 0 <= i < j < |ledger| ==> ledger[i].event.key != ledger[j].event.key
  }

  // The account is the starting one plus the ledger.
  ghost predicate Books(start: Account, account: Account, ledger: seq<LedgerRow>) {
    && DistinctFills(ledger)
    && account.cash == start.cash + Deltas(ledger)
    && account.fees == start.fees + Fees(ledger)
    && account.revision == start.revision + |ledger|
    && account.debt == (if ledger == [] then start.debt else Debt(account.cash))
  }

  lemma FillKeepsBooks(start: Account, account: Account, ledger: seq<LedgerRow>, event: FillEvent, decision: nat)
    requires Books(start, account, ledger) && ApplyFill(account, ledger, event, decision).Ok?
    ensures var (a, l) := ApplyFill(account, ledger, event, decision).value;
            && Books(start, a, l)
            && LedgerRow(event, decision) in l
            && forall row :: row in l <==> row in ledger || row == LedgerRow(event, decision)
  {
    var (a, l) := ApplyFill(account, ledger, event, decision).value;
    if l != ledger {
      assert DropLast(l) == ledger;
    }
  }

  // One delivery; a conflicting one changes nothing.
  function Deliver(account: Account, ledger: seq<LedgerRow>, row: LedgerRow): (Account, seq<LedgerRow>) {
    match ApplyFill(account, ledger, row.event, row.decision)
    case Ok(next) => next
    case Err(_) => (account, ledger)
  }

  function DeliverAll(start: Account, deliveries: seq<LedgerRow>): (Account, seq<LedgerRow>) {
    if deliveries == [] then (start, [])
    else
      var (account, ledger) := DeliverAll(start, DropLast(deliveries));
      Deliver(account, ledger, Last(deliveries))
  }

  // A row is the first delivery of its fill.
  ghost predicate FirstDelivery(deliveries: seq<LedgerRow>, row: LedgerRow) {
    exists i :: 0 <= i < |deliveries| && deliveries[i] == row && NotBefore(deliveries, i, row.event.key)
  }

  ghost predicate NotBefore(deliveries: seq<LedgerRow>, i: nat, key: FillKey)
    requires i <= |deliveries|
  {
    forall k :: 0 <= k < i ==> deliveries[k].event.key != key
  }

  // The ledger holds the first delivery of every fill and nothing else.
  ghost predicate LedgerOf(ledger: seq<LedgerRow>, deliveries: seq<LedgerRow>) {
    forall row :: row in ledger <==> FirstDelivery(deliveries, row)
  }

  // Whatever is delivered, the books stay balanced and the ledger is the first deliveries.
  lemma {:induction false} EveryDeliveryKeeps(start: Account, deliveries: seq<LedgerRow>)
    ensures var (account, ledger) := DeliverAll(start, deliveries);
            Books(start, account, ledger) && LedgerOf(ledger, deliveries)
  {
    hide Books, LedgerOf, ApplyFill;
    if deliveries == [] {
      NothingDelivered(start);
    } else {
      var front, last := DropLast(deliveries), Last(deliveries);
      assert deliveries == front + [last];
      EveryDeliveryKeeps(start, front);
      var (account, ledger) := DeliverAll(start, front);
      BooksDistinct(start, account, ledger);
      Answered(account, ledger, front, last);
      if ApplyFill(account, ledger, last.event, last.decision).Ok? {
        FillKeepsBooks(start, account, ledger, last.event, last.decision);
      }
    }
  }

  lemma BooksDistinct(start: Account, account: Account, ledger: seq<LedgerRow>)
    requires Books(start, account, ledger)
    ensures DistinctFills(ledger)
  {
  }

  lemma NothingDelivered(start: Account)
    ensures Books(start, start, []) && LedgerOf([], [])
  {
  }

  lemma FirstsGrow(front: seq<LedgerRow>, last: LedgerRow, row: LedgerRow)
    ensures FirstDelivery(front + [last], row) <==>
            FirstDelivery(front, row) || (row == last && NotBefore(front, |front|, last.event.key))
  {
    var all := front + [last];
    if FirstDelivery(all, row) {
      var i :| 0 <= i < |all| && all[i] == row && NotBefore(all, i, row.event.key);
      assert forall k :: 0 <= k < i ==> all[k] == front[k];
      if i < |front| {
        assert front[i] == row && NotBefore(front, i, row.event.key);
      }
    }
    if FirstDelivery(front, row) {
      var i :| 0 <= i < |front| && front[i] == row && NotBefore(front, i, row.event.key);
      assert all[i] == row && NotBefore(all, i, row.event.key);
    }
    if row == last && NotBefore(front, |front|, last.event.key) {
      assert all[|front|] == row && NotBefore(all, |front|, row.event.key);
    }
  }

  lemma {:induction false} SomeFirst(deliveries: seq<LedgerRow>, i: nat) returns (row: LedgerRow)
    requires i < |deliveries|
    ensures FirstDelivery(deliveries, row) && row.event.key == deliveries[i].event.key
    decreases i
  {
    if NotBefore(deliveries, i, deliveries[i].event.key) {
      row := deliveries[i];
    } else {
      var k :| 0 <= k < i && deliveries[k].event.key == deliveries[i].event.key;
      row := SomeFirst(deliveries, k);
    }
  }

  // A delivery is written if it is the first of its fill, passed over if it repeats the first, and
  // refused if it contradicts it.
  lemma Answered(account: Account, ledger: seq<LedgerRow>, front: seq<LedgerRow>, last: LedgerRow)
    requires LedgerOf(ledger, front) && DistinctFills(ledger)
    ensures var r := ApplyFill(account, ledger, last.event, last.decision);
            && (r.Err? <==> exists row :: FirstDelivery(front, row) && row.event.key == last.event.key && row != last)
            && (r.Ok? ==> r.value.1 == if NotBefore(front, |front|, last.event.key) then ledger + [last] else ledger)
            && LedgerOf(Deliver(account, ledger, last).1, front + [last])
  {
    hide FirstDelivery;
    var found := FindFill(ledger, last.event.key);
    if found.Some? {
      assert found.value in ledger && FirstDelivery(front, found.value);
      FirstIsDelivered(front, found.value);
      OneFirst(front, found.value);
    } else {
      forall k | 0 <= k < |front| ensures front[k].event.key != last.event.key {
        var row := SomeFirst(front, k);
        assert row in ledger;
      }
      NoFirst(front, last.event.key);
    }
    forall row ensures row in Deliver(account, ledger, last).1 <==> FirstDelivery(front + [last], row) {
      FirstsGrow(front, last, row);
    }
  }

  lemma FirstIsDelivered(deliveries: seq<LedgerRow>, row: LedgerRow)
    requires FirstDelivery(deliveries, row)
    ensures !NotBefore(deliveries, |deliveries|, row.event.key)
  {
  }

  lemma OneFirst(deliveries: seq<LedgerRow>, row: LedgerRow)
    requires FirstDelivery(deliveries, row)
    ensures forall other :: FirstDelivery(deliveries, other) && other.event.key == row.event.key ==> other == row
  {
    var i :| 0 <= i < |deliveries| && deliveries[i] == row && NotBefore(deliveries, i, row.event.key);
    forall other | FirstDelivery(deliveries, other) && other.event.key == row.event.key ensures other == row {
      var k :| 0 <= k < |deliveries| && deliveries[k] == other && NotBefore(deliveries, k, other.event.key);
      assert !(k < i) && !(i < k);
    }
  }

  lemma NoFirst(deliveries: seq<LedgerRow>, key: FillKey)
    requires NotBefore(deliveries, |deliveries|, key)
    ensures forall row :: FirstDelivery(deliveries, row) ==> row.event.key != key
  {
  }

  // Sums over a ledger of distinct fills do not depend on the order of its rows.
  lemma {:induction false} SumsOfSet(a: seq<LedgerRow>, b: seq<LedgerRow>)
    requires DistinctFills(a) && DistinctFills(b) && forall row :: row in a <==> row in b
    ensures Deltas(a) == Deltas(b) && Fees(a) == Fees(b) && |a| == |b|
  {
    NotEmpty(b, a);
    if a != [] {
      var row := Last(a);
      assert row in b;
      var k :| 0 <= k < |b| && b[k] == row;
      var rest := b[..k] + b[k + 1..];
      RemoveRow(b, k);
      forall x ensures x in DropLast(a) <==> x in rest {
        RestMembers(b, k, x);
        RestMembers(a, |a| - 1, x);
        assert a[..|a| - 1] + a[|a|..] == DropLast(a);
      }
      SumsOfSet(DropLast(a), rest);
    }
  }

  lemma NotEmpty(a: seq<LedgerRow>, b: seq<LedgerRow>)
    requires forall row :: row in a ==> row in b
    ensures a != [] ==> b != []
  {
    if a != [] {
      assert a[0] in b;
    }
  }

  lemma RestMembers(b: seq<LedgerRow>, k: nat, x: LedgerRow)
    requires DistinctFills(b) && k < |b|
    ensures x in b[..k] + b[k + 1..] <==> x in b && x != b[k]
    ensures DistinctFills(b[..k] + b[k + 1..])
  {
    var rest := b[..k] + b[k + 1..];
    assert b == b[..k] + [b[k]] + b[k + 1..];
    if x in rest {
      var i :| 0 <= i < |rest| && rest[i] == x;
      assert x == if i < k then b[i] else b[i + 1];
    }
  }

  lemma {:induction false} RemoveRow(b: seq<LedgerRow>, k: nat)
    requires k < |b|
    ensures var rest := b[..k] + b[k + 1..];
            Deltas(b) == Deltas(rest) + b[k].event.delta && Fees(b) == Fees(rest) + b[k].event.fee && |b| == |rest| + 1
  {
    var rest := b[..k] + b[k + 1..];
    if k == |b| - 1 {
      assert rest == DropLast(b);
    } else {
      RemoveRow(DropLast(b), k);
      assert DropLast(b)[..k] + DropLast(b)[k + 1..] == DropLast(rest);
      assert Last(rest) == Last(b);
    }
  }

  // Confluence: two delivery sequences with the same first deliveries, in any order and with any
  // repetitions and contradictions behind them, end in the same account and the same set of rows;
  // the sets of rows are the same only then.
  lemma Confluence(start: Account, a: seq<LedgerRow>, b: seq<LedgerRow>)
    ensures (forall row :: FirstDelivery(a, row) <==> FirstDelivery(b, row)) <==>
            (forall row :: row in DeliverAll(start, a).1 <==> row in DeliverAll(start, b).1)
    ensures (forall row :: FirstDelivery(a, row) <==> FirstDelivery(b, row)) ==> DeliverAll(start, a).0 == DeliverAll(start, b).0
  {
    hide Books, FirstDelivery, DeliverAll;
    EveryDeliveryKeeps(start, a);
    EveryDeliveryKeeps(start, b);
    if forall row :: FirstDelivery(a, row) <==> FirstDelivery(b, row) {
      SameBooks(start, DeliverAll(start, a).0, DeliverAll(start, a).1, DeliverAll(start, b).0, DeliverAll(start, b).1);
    }
    if forall row :: row in DeliverAll(start, a).1 <==> row in DeliverAll(start, b).1 {
      forall row ensures FirstDelivery(a, row) <==> FirstDelivery(b, row) {
        assert row in DeliverAll(start, a).1 <==> FirstDelivery(a, row);
        assert row in DeliverAll(start, b).1 <==> FirstDelivery(b, row);
      }
    }
  }

  // No two deliveries disagree about a fill.
  ghost predicate Consistent(deliveries: seq<LedgerRow>) {
    forall i, j :: 0 <= i < |deliveries| && 0 <= j < |deliveries| && deliveries[i].event.key == deliveries[j].event.key
      ==> deliveries[i] == deliveries[j]
  }

  lemma ConsistentFirsts(deliveries: seq<LedgerRow>, row: LedgerRow)
    requires Consistent(deliveries)
    ensures FirstDelivery(deliveries, row) <==> row in deliveries
  {
    if row in deliveries {
      var i :| 0 <= i < |deliveries| && deliveries[i] == row;
      var first := SomeFirst(deliveries, i);
      var k :| 0 <= k < |deliveries| && deliveries[k] == first && NotBefore(deliveries, k, first.event.key);
      assert deliveries[k] == deliveries[i];
    }
  }

  // When no two deliveries disagree, the order and the repetitions do not matter at all.
  lemma ConsistentConfluence(start: Account, a: seq<LedgerRow>, b: seq<LedgerRow>)
    requires Consistent(a) && forall row :: row in a <==> row in b
    ensures DeliverAll(start, a).0 == DeliverAll(start, b).0
    ensures forall row :: row in DeliverAll(start, a).1 <==> row in a
    ensures forall row :: row in DeliverAll(start, b).1 <==> row in a
  {
    hide FirstDelivery, DeliverAll;
    ConsistentToo(a, b);
    forall row ensures (FirstDelivery(a, row) <==> row in a) && (FirstDelivery(b, row) <==> row in b) {
      ConsistentFirsts(a, row);
      ConsistentFirsts(b, row);
    }
    Confluence(start, a, b);
    EveryDeliveryKeeps(start, a);
  }

  lemma ConsistentToo(a: seq<LedgerRow>, b: seq<LedgerRow>)
    requires Consistent(a) && forall row :: row in a <==> row in b
    ensures Consistent(b)
  {
    forall i, j | 0 <= i < |b| && 0 <= j < |b| && b[i].event.key == b[j].event.key ensures b[i] == b[j] {
      assert b[i] in a && b[j] in a;
    }
  }

  lemma SameBooks(start: Account, a: Account, la: seq<LedgerRow>, b: Account, lb: seq<LedgerRow>)
    requires Books(start, a, la) && Books(start, b, lb) && forall row :: row in la <==> row in lb
    ensures a == b
  {
    SumsOfSet(la, lb);
  }

  /* ---- In place ---- */

  method NormalizeFills(order: HistoricalOrder) returns (r: Result<seq<FillEvent>, CapitalError>)
    ensures r == NormalizeOrderFills(order)
  {
    hide NormalizeFill;
    if order.side.None? {
      return Err(UnsupportedSide);
    }
    var fills := Sort(Earlier, order.fills);
    var events: seq<FillEvent> := [];
    for i := 0 to |fills|
      invariant NormalizeAll(order.orderId, order.side.value, fills[..i]) == Ok(events)
    {
      assert DropLast(fills[..i + 1]) == fills[..i];
      var event := NormalizeFill(order.orderId, order.side.value, fills[i]);
      if event.Err? {
        NormalizeErrorStays(order.orderId, order.side.value, fills, i + 1, |fills|);
        assert fills[..|fills|] == fills;
        return Err(event.error);
      }
      events := events + [event.value];
    }
    assert fills[..|fills|] == fills;
    return Ok(events);
  }

  lemma {:induction false} NormalizeErrorStays(orderId: nat, side: Side, fills: seq<RawFill>, i: nat, j: nat)
    requires i <= j <= |fills| && NormalizeAll(orderId, side, fills[..i]).Err?
    ensures NormalizeAll(orderId, side, fills[..j]) == NormalizeAll(orderId, side, fills[..i])
    decreases j
  {
    if i < j {
      NormalizeErrorStays(orderId, side, fills, i, j - 1);
      assert DropLast(fills[..j]) == fills[..j - 1];
    }
  }
}
