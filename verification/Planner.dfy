// src/sp1execution/engine/planner.py and the buy replan of broker_executor_v04.py, over exact
// reals: orders for the difference between target and current values, and why the buys of a
// replan fit the realised cash.
module Planner {
  import opened Common
  import opened Capital
  import opened ExecutionTables

  datatype Currency = Eur | Usd

  datatype Quote = Quote(symbol: nat, ticker: nat, price: real, currency: Currency)

  datatype Target = Target(symbol: nat, weight: real)

  datatype PlannedOrder = PlannedOrder(symbol: nat, ticker: nat, quantity: real, notional: real, delta: real)

  datatype PlanError = NavNotPositive | WeightSum | BadEurUsd | MissingQuote | ZeroPrice | NegativeNav | FreshSell

  // Positions as position_quantities returns them: quantity by ticker.
  type Holdings = map<nat, real>

  function Held(holdings: Holdings, ticker: nat): real {
    if ticker in holdings then holdings[ticker] else 0.0
  }

  function Value(quantity: real, q: Quote, eurusd: real): real
    requires eurusd > 0.0
  {
    if q.currency.Eur? then quantity * q.price else quantity * q.price / eurusd
  }

  function QuantityFor(delta: real, q: Quote, eurusd: real): real
    requires q.price > 0.0
  {
    if q.currency.Eur? then delta / q.price else delta * eurusd / q.price
  }

  // int(x * 10000) / 10000: toward zero.
  function Truncated(x: real): real {
    if x >= 0.0 then ((x * 10000.0).Floor as real) / 10000.0
    else -(((-x * 10000.0).Floor as real) / 10000.0)
  }

  function Weights(targets: seq<Target>): real {
    if targets == [] then 0.0 else Weights(DropLast(targets)) + Last(targets).weight
  }

  function FindQuote(quotes: seq<Quote>, symbol: nat): (r: Option<Quote>)
    ensures r.Some? ==> r.value in quotes && r.value.symbol == symbol
    ensures r.None? ==> forall i :: 0 <= i < |quotes| ==> quotes[i].symbol != symbol
  {
    if quotes == [] then None
    else if Last(quotes).symbol == symbol then Some(Last(quotes))
    else FindQuote(DropLast(quotes), symbol)
  }

  datatype Setting = Setting(nav: real, quotes: seq<Quote>, holdings: Holdings, eurusd: real, tolerance: real, buffer: real)

  function Delta(s: Setting, t: Target, q: Quote): real
    requires s.eurusd > 0.0
  {
    s.nav * t.weight - Value(Held(s.holdings, q.ticker), q, s.eurusd)
  }

  function Effective(s: Setting, delta: real): real {
    if delta < 0.0 then delta else delta * s.buffer
  }

  // The order for one target, if the difference is worth one.
  function OrderFor(s: Setting, t: Target, q: Quote): Option<PlannedOrder>
    requires s.eurusd > 0.0 && q.price > 0.0
  {
    var delta := Delta(s, t, q);
    var quantity := Truncated(QuantityFor(Effective(s, delta), q, s.eurusd));
    if AbsReal(delta) <= s.nav * s.tolerance then None
    else if AbsReal(quantity) < 0.00000001 then None
    else Some(PlannedOrder(t.symbol, q.ticker, quantity, AbsReal(Effective(s, delta)), delta))
  }

  predicate PositivePrices(quotes: seq<Quote>) {
    forall i :: 0 <= i < |quotes| ==> quotes[i].price > 0.0
  }

  // The orders of the targets, in their order.
  function Orders(s: Setting, targets: seq<Target>): Result<seq<PlannedOrder>, PlanError>
    requires s.eurusd > 0.0 && PositivePrices(s.quotes)
  {
    if targets == [] then Ok([])
    else
      var before :- Orders(s, DropLast(targets));
      match FindQuote(s.quotes, Last(targets).symbol)
      case None => Err(MissingQuote)
      case Some(q) =>
        match OrderFor(s, Last(targets), q)
        case None => Ok(before)
        case Some(order) => Ok(before + [order])
  }

  predicate SellsFirst(a: PlannedOrder, b: PlannedOrder) {
    a.quantity <= 0.0 || b.quantity > 0.0
  }

  function MakeOrders(s: Setting, targets: seq<Target>): Result<seq<PlannedOrder>, PlanError> {
    if s.nav <= 0.0 then Err(NavNotPositive)
    else if !(0.95 <= Weights(targets) <= 1.0000001) then Err(WeightSum)
    else if s.eurusd <= 0.0 && exists i :: 0 <= i < |s.quotes| && s.quotes[i].currency.Usd? then Err(BadEurUsd)
    else if !PositivePrices(s.quotes) then Err(ZeroPrice)
    else
      var usable := if s.eurusd > 0.0 then s else s.(eurusd := 1.0);
      var orders :- Orders(usable, targets);
      Ok(Sort(SellsFirst, orders))
  }

  method PlanOrders(s: Setting, targets: seq<Target>) returns (r: Result<seq<PlannedOrder>, PlanError>)
    ensures r == MakeOrders(s, targets)
  {
    hide OrderFor, FindQuote, PositivePrices;
    if s.nav <= 0.0 {
      return Err(NavNotPositive);
    }
    var sum := 0.0;
    for i := 0 to |targets|
      invariant sum == Weights(targets[..i])
    {
      assert DropLast(targets[..i + 1]) == targets[..i];
      sum := sum + targets[i].weight;
    }
    assert targets[..|targets|] == targets;
    if !(0.95 <= sum <= 1.0000001) {
      return Err(WeightSum);
    }
    if s.eurusd <= 0.0 && exists i :: 0 <= i < |s.quotes| && s.quotes[i].currency.Usd? {
      return Err(BadEurUsd);
    }
    if !PositivePrices(s.quotes) {
      return Err(ZeroPrice);
    }
    var usable := if s.eurusd > 0.0 then s else s.(eurusd := 1.0);
    var orders: seq<PlannedOrder> := [];
    for i := 0 to |targets|
      invariant Orders(usable, targets[..i]) == Ok(orders)
    {
      assert DropLast(targets[..i + 1]) == targets[..i];
      var quote := FindQuote(usable.quotes, targets[i].symbol);
      if quote.None? {
        OrderErrorStays(usable, targets, i + 1, |targets|);
        return Err(MissingQuote);
      }
      PriceAt(usable.quotes, quote.value);
      var order := OrderFor(usable, targets[i], quote.value);
      if order.Some? {
        orders := orders + [order.value];
      }
    }
    return Ok(Sort(SellsFirst, orders));
  }

  lemma PriceAt(quotes: seq<Quote>, q: Quote)
    requires PositivePrices(quotes) && q in quotes
    ensures q.price > 0.0
  {
  }

  lemma {:induction false} OrderErrorStays(s: Setting, targets: seq<Target>, i: nat, j: nat)
    requires s.eurusd > 0.0 && PositivePrices(s.quotes)
    requires i <= j <= |targets| && Orders(s, targets[..i]).Err?
    ensures Orders(s, targets[..j]) == Orders(s, targets[..i])
    decreases j
  {
    if i < j {
      OrderErrorStays(s, targets, i, j - 1);
      assert DropLast(targets[..j]) == targets[..j - 1];
    }
  }

  /* ---- One order ---- */

  lemma TruncatedBelow(x: real)
    ensures x >= 0.0 ==> 0.0 <= Truncated(x) <= x
    ensures Truncated(x) > 0.0 ==> x > 0.0
  {
    var n := (x * 10000.0).Floor;
    var m := (-x * 10000.0).Floor;
    assert n as real <= x * 10000.0;
    if x >= 0.0 {
      assert 0.0 <= n as real;
      assert (n as real) / 10000.0 <= (x * 10000.0) / 10000.0;
    } else {
      assert 0.0 <= m as real;
    }
  }

  lemma ProductGrows(a: real, b: real, p: real)
    requires a <= b && p > 0.0
    ensures a * p <= b * p
  {
    assert (b - a) * p >= 0.0;
  }

  lemma QuotientGrows(a: real, b: real, d: real)
    requires a <= b && d > 0.0
    ensures a / d <= b / d
  {
    assert (b - a) / d >= 0.0;
    assert (b - a) / d == b / d - a / d;
  }

  // A quantity no larger than the exact one costs no more than the money it was made from.
  lemma CostOf(quantity: real, money: real, q: Quote, eurusd: real)
    requires q.price > 0.0 && eurusd > 0.0 && quantity <= QuantityFor(money, q, eurusd)
    ensures Value(quantity, q, eurusd) <= money
  {
    var exact := QuantityFor(money, q, eurusd);
    ProductGrows(quantity, exact, q.price);
    if q.currency.Eur? {
      assert exact * q.price == money;
    } else {
      assert exact * q.price == money * eurusd;
      QuotientGrows(quantity * q.price, money * eurusd, eurusd);
      assert money * eurusd / eurusd == money;
    }
  }

  lemma PositiveMoney(money: real, q: Quote, eurusd: real)
    requires q.price > 0.0 && eurusd > 0.0 && QuantityFor(money, q, eurusd) > 0.0
    ensures money > 0.0
  {
    var up := if q.currency.Eur? then money else money * eurusd;
    if up <= 0.0 {
      QuotientGrows(up, 0.0, q.price);
    }
    assert up > 0.0;
    if money <= 0.0 {
      ProductGrows(money, 0.0, eurusd);
    }
  }

  lemma EffectiveOf(s: Setting, delta: real)
    requires s.buffer >= 0.0 && Effective(s, delta) > 0.0
    ensures delta > 0.0 && Effective(s, delta) == s.buffer * delta
  {
    assert 0.0 * s.buffer == 0.0;
  }

  // A truncated buy costs no more at the quote than its notional.
  lemma BuyCostsAtMostNotional(s: Setting, t: Target, q: Quote)
    requires s.eurusd > 0.0 && q.price > 0.0 && s.buffer >= 0.0
    requires OrderFor(s, t, q).Some? && OrderFor(s, t, q).value.quantity > 0.0
    ensures var order := OrderFor(s, t, q).value;
            && order.delta == Delta(s, t, q) > 0.0
            && Value(order.quantity, q, s.eurusd) <= order.notional == s.buffer * order.delta
  {
    hide Truncated, QuantityFor, Value, Effective, Delta;
    var order := OrderFor(s, t, q).value;
    var money := Effective(s, order.delta);
    TruncatedBelow(QuantityFor(money, q, s.eurusd));
    PositiveMoney(money, q, s.eurusd);
    EffectiveOf(s, order.delta);
    CostOf(order.quantity, money, q, s.eurusd);
  }

  /* ---- The buys of a replan ---- */

  function BuyNotional(orders: seq<PlannedOrder>): real {
    if orders == [] then 0.0
    else BuyNotional(DropLast(orders)) + if Last(orders).quantity > 0.0 then Last(orders).notional else 0.0
  }

  predicate NoSells(orders: seq<PlannedOrder>) {
    forall i :: 0 <= i < |orders| ==> orders[i].quantity > 0.0
  }

  // The current value of a symbol, zero without a quote.
  function ValueOf(s: Setting, symbol: nat): real
    requires s.eurusd > 0.0
  {
    match FindQuote(s.quotes, symbol)
    case None => 0.0
    case Some(q) => Value(Held(s.holdings, q.ticker), q, s.eurusd)
  }

  // Target minus current value.
  function Gap(s: Setting, t: Target): real
    requires s.eurusd > 0.0
  {
    s.nav * t.weight - ValueOf(s, t.symbol)
  }

  function Positive(x: real): real {
    if x > 0.0 then x else 0.0
  }

  function TargetValues(s: Setting, targets: seq<Target>): real
    requires s.eurusd > 0.0
  {
    if targets == [] then 0.0 else TargetValues(s, DropLast(targets)) + ValueOf(s, Last(targets).symbol)
  }

  // What the held symbols are worth above their targets, and what they lack to them.
  function Overweight(s: Setting, targets: seq<Target>): real
    requires s.eurusd > 0.0
  {
    if targets == [] then 0.0 else Overweight(s, DropLast(targets)) + Positive(-Gap(s, Last(targets)))
  }

  function Underweight(s: Setting, targets: seq<Target>): real
    requires s.eurusd > 0.0
  {
    if targets == [] then 0.0 else Underweight(s, DropLast(targets)) + Positive(Gap(s, Last(targets)))
  }

  lemma {:induction false} GapsAddUp(s: Setting, targets: seq<Target>)
    requires s.eurusd > 0.0
    ensures Underweight(s, targets) == s.nav * Weights(targets) - TargetValues(s, targets) + Overweight(s, targets)
  {
    hide ValueOf;
    if targets != [] {
      GapsAddUp(s, DropLast(targets));
      Distribute(s.nav, Weights(DropLast(targets)), Last(targets).weight);
    }
  }

  lemma Distribute(nav: real, a: real, b: real)
    ensures nav * (a + b) == nav * a + nav * b
  {
  }

  // An order for a target buys for at most the buffered gap.
  lemma OneBuy(s: Setting, t: Target, q: Quote)
    requires s.eurusd > 0.0 && q.price > 0.0 && s.buffer >= 0.0 && FindQuote(s.quotes, t.symbol) == Some(q)
    ensures 0.0 <= s.buffer * Positive(Gap(s, t))
    ensures OrderFor(s, t, q).Some? && OrderFor(s, t, q).value.quantity > 0.0 ==>
              0.0 <= OrderFor(s, t, q).value.notional <= s.buffer * Positive(Gap(s, t))
  {
    hide OrderFor, Value, FindQuote;
    assert Delta(s, t, q) == Gap(s, t);
    hide Gap, Delta;
    var up := Positive(Gap(s, t));
    assert s.buffer * up >= 0.0;
    if OrderFor(s, t, q).Some? && OrderFor(s, t, q).value.quantity > 0.0 {
      BuyCostsAtMostNotional(s, t, q);
    }
  }

  // Together the buys cost at most the buffered underweight.
  lemma {:induction false} BuysWithinGaps(s: Setting, targets: seq<Target>)
    requires s.eurusd > 0.0 && PositivePrices(s.quotes) && s.buffer >= 0.0
    requires Orders(s, targets).Ok? && NoSells(Orders(s, targets).value)
    ensures 0.0 <= BuyNotional(Orders(s, targets).value) <= s.buffer * Underweight(s, targets)
  {
    hide OrderFor, Gap, Positive, BuyNotional, Underweight, NoSells, PositivePrices;
    EmptySums(s);
    if targets != [] {
      var front, t := DropLast(targets), Last(targets);
      var before, after := Orders(s, front).value, Orders(s, targets).value;
      var q := FindQuote(s.quotes, t.symbol).value;
      PriceAt(s.quotes, q);
      FrontHasNoSells(before, after);
      BuysWithinGaps(s, front);
      OneBuy(s, t, q);
      NextSums(s, targets);
      var bought := BuyNotional(after) - BuyNotional(before);
      LastNotional(before, after);
      Combine(s.buffer, Underweight(s, front), Positive(Gap(s, t)), BuyNotional(before), bought);
    }
  }

  lemma EmptySums(s: Setting)
    requires s.eurusd > 0.0
    ensures BuyNotional([]) == 0.0 && Underweight(s, []) == 0.0 && s.buffer * 0.0 == 0.0
  {
  }

  lemma NextSums(s: Setting, targets: seq<Target>)
    requires s.eurusd > 0.0 && targets != []
    ensures Underweight(s, targets) == Underweight(s, DropLast(targets)) + Positive(Gap(s, Last(targets)))
  {
  }

  lemma LastNotional(before: seq<PlannedOrder>, after: seq<PlannedOrder>)
    requires NoSells(after)
    requires after == before || (|after| == |before| + 1 && after[..|before|] == before)
    ensures BuyNotional(after) - BuyNotional(before) == if after == before then 0.0 else Last(after).notional
    ensures after != before ==> Last(after).quantity > 0.0
  {
    if after != before {
      assert DropLast(after) == before;
    }
  }

  lemma Combine(buffer: real, a: real, b: real, x: real, y: real)
    requires 0.0 <= x <= buffer * a && 0.0 <= y <= buffer * b
    ensures 0.0 <= x + y <= buffer * (a + b)
  {
    Distribute(buffer, a, b);
  }

  lemma FrontHasNoSells(before: seq<PlannedOrder>, after: seq<PlannedOrder>)
    requires NoSells(after) && |before| <= |after| && after[..|before|] == before
    ensures NoSells(before)
  {
    forall i | 0 <= i < |before| ensures before[i].quantity > 0.0 {
      assert after[i] == before[i];
    }
  }

  /* ---- NAV ---- */

  // invested value: every quoted holding counted once, negative ones not at all.
  function Invested(s: Setting, quotes: seq<Quote>): real
    requires s.eurusd > 0.0
  {
    if quotes == [] then 0.0
    else
      var v := Value(Held(s.holdings, Last(quotes).ticker), Last(quotes), s.eurusd);
      Invested(s, DropLast(quotes)) + if v > 0.0 then v else 0.0
  }

  ghost predicate DistinctSymbols(quotes: seq<Quote>) {
    forall i, j :: 0 <= i < j < |quotes| ==> quotes[i].symbol != quotes[j].symbol
  }

  ghost predicate DistinctTargets(targets: seq<Target>) {
    forall i, j :: 0 <= i < j < |targets| ==> targets[i].symbol != targets[j].symbol
  }

  // No short positions, and every quoted holding has a target weight.
  ghost predicate WellHeld(s: Setting, quotes: seq<Quote>, targets: seq<Target>)
    requires s.eurusd > 0.0
  {
    forall i :: 0 <= i < |quotes| ==>
      var v := Value(Held(s.holdings, quotes[i].ticker), quotes[i], s.eurusd);
      v >= 0.0 && (v > 0.0 ==> exists j :: 0 <= j < |targets| && targets[j].symbol == quotes[i].symbol)
  }

  function ValueIn(s: Setting, quotes: seq<Quote>, symbol: nat): real
    requires s.eurusd > 0.0
  {
    match FindQuote(quotes, symbol)
    case None => 0.0
    case Some(q) => Value(Held(s.holdings, q.ticker), q, s.eurusd)
  }

  function ValuesIn(s: Setting, quotes: seq<Quote>, targets: seq<Target>): real
    requires s.eurusd > 0.0
  {
    if targets == [] then 0.0 else ValuesIn(s, quotes, DropLast(targets)) + ValueIn(s, quotes, Last(targets).symbol)
  }

  lemma {:induction false} ValuesInAll(s: Setting, targets: seq<Target>)
    requires s.eurusd > 0.0
    ensures ValuesIn(s, s.quotes, targets) == TargetValues(s, targets)
  {
    if targets != [] {
      ValuesInAll(s, DropLast(targets));
    }
  }

  // One more quote adds its value once, or nothing when its symbol has no target.
  lemma {:induction false} OneMoreQuote(s: Setting, quotes: seq<Quote>, q: Quote, targets: seq<Target>)
    requires s.eurusd > 0.0 && DistinctTargets(targets) && forall i :: 0 <= i < |quotes| ==> quotes[i].symbol != q.symbol
    ensures ValuesIn(s, quotes + [q], targets) == ValuesIn(s, quotes, targets) +
            (if exists j :: 0 <= j < |targets| && targets[j].symbol == q.symbol
             then Value(Held(s.holdings, q.ticker), q, s.eurusd) else 0.0)
  {
    assert DropLast(quotes + [q]) == quotes;
    if targets != [] {
      var front, t := DropLast(targets), Last(targets);
      OneMoreQuote(s, quotes, q, front);
      if t.symbol == q.symbol {
        assert targets[|targets| - 1].symbol == q.symbol;
        assert forall j :: 0 <= j < |front| ==> front[j] == targets[j] && front[j].symbol != q.symbol;
        assert FindQuote(quotes, t.symbol).None?;
      } else if exists j :: 0 <= j < |targets| && targets[j].symbol == q.symbol {
        var j :| 0 <= j < |targets| && targets[j].symbol == q.symbol;
        assert front[j].symbol == q.symbol;
      }
    }
  }

  // Summed over the targets or over the quotes, the holdings are worth the same.
  lemma {:induction false} InvestedIsTargeted(s: Setting, quotes: seq<Quote>, targets: seq<Target>)
    requires s.eurusd > 0.0 && DistinctTargets(targets) && DistinctSymbols(quotes) && WellHeld(s, quotes, targets)
    ensures Invested(s, quotes) == ValuesIn(s, quotes, targets)
  {
    if quotes == [] {
      NoValues(s, targets);
    } else {
      var front, q := DropLast(quotes), Last(quotes);
      assert quotes == front + [q] && quotes[|quotes| - 1] == q;
      assert WellHeld(s, front, targets) by {
        assert forall i :: 0 <= i < |front| ==> front[i] == quotes[i];
      }
      InvestedIsTargeted(s, front, targets);
      OneMoreQuote(s, front, q, targets);
    }
  }

  lemma {:induction false} NoValues(s: Setting, targets: seq<Target>)
    requires s.eurusd > 0.0
    ensures ValuesIn(s, [], targets) == 0.0
  {
    if targets != [] {
      NoValues(s, DropLast(targets));
    }
  }

  // Without sells, sorting sells first changes nothing.
  lemma MadeInOrder(s: Setting, targets: seq<Target>)
    requires s.eurusd > 0.0 && PositivePrices(s.quotes)
    requires MakeOrders(s, targets).Ok? && NoSells(MakeOrders(s, targets).value)
    ensures Orders(s, targets) == MakeOrders(s, targets)
  {
    hide OrderFor, Weights;
    var orders := Orders(s, targets).value;
    forall i | 0 <= i < |orders| ensures orders[i].quantity > 0.0 {
      SortMembers(SellsFirst, orders, orders[i]);
    }
    SortOfSorted(SellsFirst, orders);
  }

  // A replan without sells buys for at most the buffered cash, what the weights exceed one by,
  // and what is held above target, whatever the number of instruments.
  lemma ReplanBound(s: Setting, targets: seq<Target>, cash: real)
    requires s.eurusd > 0.0 && PositivePrices(s.quotes) && s.buffer >= 0.0
    requires DistinctTargets(targets) && DistinctSymbols(s.quotes) && WellHeld(s, s.quotes, targets)
    requires s.nav == Invested(s, s.quotes) + cash
    requires MakeOrders(s, targets).Ok? && NoSells(MakeOrders(s, targets).value)
    ensures 0.0 <= BuyNotional(MakeOrders(s, targets).value)
            <= s.buffer * (cash + s.nav * (Weights(targets) - 1.0) + Overweight(s, targets))
  {
    hide Orders, MakeOrders, Weights, Overweight, Underweight, BuyNotional, TargetValues, Invested, WellHeld, ValuesIn;
    MadeInOrder(s, targets);
    BuysWithinGaps(s, targets);
    GapsAddUp(s, targets);
    InvestedIsTargeted(s, s.quotes, targets);
    ValuesInAll(s, targets);
    Distribute(s.nav, Weights(targets), -1.0);
    assert Underweight(s, targets) == cash + s.nav * (Weights(targets) - 1.0) + Overweight(s, targets);
  }

  /* ---- The notional refusal ---- */

  function LegSpecs(orders: seq<PlannedOrder>): seq<LegSpec> {
    seq(|orders|, i requires 0 <= i < |orders| => LegSpec(Capital.Buy, orders[i].ticker, orders[i].quantity, Some(100.0 * orders[i].notional)))
  }

  lemma {:induction false} EstimatesAreNotional(orders: seq<PlannedOrder>)
    requires NoSells(orders)
    ensures Estimates(LegSpecs(orders)) == 100.0 * BuyNotional(orders)
  {
    if orders != [] {
      assert DropLast(LegSpecs(orders)) == LegSpecs(DropLast(orders));
      FrontHasNoSells(DropLast(orders), orders);
      EstimatesAreNotional(DropLast(orders));
      assert orders[|orders| - 1].quantity > 0.0;
    }
  }

  lemma CashSuffices(nav: real, weights: real, cash: real, notional: real)
    requires nav > 0.0 && weights <= 1.0
    requires 0.0 <= notional <= 0.9975 * (cash + nav * (weights - 1.0) + 0.0)
    ensures notional <= cash
  {
    ProductGrows(weights - 1.0, 0.0, nav);
  }

  // With weights of at most one and nothing above target, install_buy_legs never refuses the
  // planned notional.
  lemma NotionalRefusalCannotFire(s: Setting, targets: seq<Target>, db: Db, id: nat)
    requires s.eurusd > 0.0 && PositivePrices(s.quotes) && s.buffer == 0.9975
    requires DistinctTargets(targets) && DistinctSymbols(s.quotes) && WellHeld(s, s.quotes, targets)
    requires s.nav == Invested(s, s.quotes) + (db.machine.account.cash as real) / 100.0 && s.nav > 0.0
    requires Weights(targets) <= 1.0 && Overweight(s, targets) == 0.0
    requires MakeOrders(s, targets).Ok? && NoSells(MakeOrders(s, targets).value)
    ensures InstallBuys(db, id, LegSpecs(MakeOrders(s, targets).value)) != Err(PlannedExceedsCash)
  {
    hide InstallBuys, MakeOrders, Weights, Overweight, BuyNotional, Invested, WellHeld, PositivePrices, LegSpecs, Estimates, NoSells;
    var orders, cash := MakeOrders(s, targets).value, (db.machine.account.cash as real) / 100.0;
    ReplanBound(s, targets, cash);
    CashSuffices(s.nav, Weights(targets), cash, BuyNotional(orders));
    EstimatesAreNotional(orders);
    RefusalNeedsExcess(db, id, LegSpecs(orders));
  }

  lemma RefusalNeedsExcess(db: Db, id: nat, specs: seq<LegSpec>)
    ensures InstallBuys(db, id, specs) == Err(PlannedExceedsCash) ==> Estimates(specs) > db.machine.account.cash as real + 1.0
  {
    hide MoveAndCommit, Estimates;
    MoveNeverExceeds(db, id);
  }

  lemma MoveNeverExceeds(db: Db, id: nat)
    ensures forall w, suffix, to :: MoveAndCommit(Put(db, id, w), id, suffix, to) != Err(PlannedExceedsCash)
  {
  }
}
