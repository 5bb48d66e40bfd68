// Which orders make_orders of src/sp1execution/engine/planner.py plans, told by the quotes, the
// holdings and the weights: one for each target far enough from its weight, sized to the last
// ten-thousandth of a unit, the sells first.
module PlannedOrders {
  import opened Common
  import opened Capital
  import opened Planner

  /* ---- What an order says ---- */

  // The last quote of a symbol.
  ghost predicate QuoteFor(quotes: seq<Quote>, symbol: nat, q: Quote) {
    exists k :: 0 <= k < |quotes| && quotes[k] == q && q.symbol == symbol && forall j :: k < j < |quotes| ==> quotes[j].symbol != symbol
  }

  // What one unit costs in euro.
  ghost predicate UnitPrice(q: Quote, eurusd: real, unit: real) {
    if q.currency.Eur? then unit == q.price else unit * eurusd == q.price
  }

  // What is missing to the target, in euro; negative when too much is held.
  ghost function Missing(s: Setting, t: Target, q: Quote, unit: real): real {
    s.nav * t.weight - Held(s.holdings, q.ticker) * unit
  }

  // What the order may move: all of an excess, the buffered part of what is missing.
  ghost function Money(s: Setting, missing: real): real {
    if missing < 0.0 then missing else s.buffer * missing
  }

  ghost predicate IsWhole(x: real) {
    x.Floor as real == x
  }

  // The most whole ten-thousandths of a unit that the money pays for, or that bring no more than it.
  ghost predicate Sized(quantity: real, money: real, unit: real) {
    && IsWhole(quantity * 10000.0)
    && if money >= 0.0 then quantity >= 0.0 && quantity * unit <= money < (quantity + 0.0001) * unit
       else quantity <= 0.0 && (quantity - 0.0001) * unit < money <= quantity * unit
  }

  ghost predicate OutOfTolerance(s: Setting, missing: real) {
    missing > s.nav * s.tolerance || -missing > s.nav * s.tolerance
  }

  ghost predicate OrderAt(s: Setting, t: Target, q: Quote, unit: real, o: PlannedOrder) {
    var missing := Missing(s, t, q, unit);
    && o.symbol == t.symbol && o.ticker == q.ticker && o.delta == missing
    && o.notional == AbsReal(Money(s, missing)) && Sized(o.quantity, Money(s, missing), unit)
    && OutOfTolerance(s, missing) && o.quantity != 0.0
  }

  ghost predicate OrderIs(s: Setting, t: Target, o: PlannedOrder) {
    exists q, unit :: QuoteFor(s.quotes, t.symbol, q) && UnitPrice(q, s.eurusd, unit) && OrderAt(s, t, q, unit, o)
  }

  // The difference is out of tolerance, and its money is worth a ten-thousandth of a unit.
  ghost predicate WorthOrder(s: Setting, t: Target) {
    exists q, unit :: QuoteFor(s.quotes, t.symbol, q) && UnitPrice(q, s.eurusd, unit) && WorthAt(s, t, q, unit)
  }

  ghost predicate WorthAt(s: Setting, t: Target, q: Quote, unit: real) {
    var missing := Missing(s, t, q, unit);
    OutOfTolerance(s, missing) && AbsReal(Money(s, missing)) >= 0.0001 * unit
  }

  // The orders are those of the targets at these indexes, in the order of the targets.
  ghost predicate InOrder(s: Setting, targets: seq<Target>, orders: seq<PlannedOrder>, at: seq<nat>) {
    && |at| == |orders|
    && (forall k :: 0 <= k < |orders| ==> at[k] < |targets| && OrderIs(s, targets[at[k]], orders[k]))
    && (forall j, k :: 0 <= j < k < |at| ==> at[j] < at[k])
  }

  // Sells and buys, each in the order of the targets, for exactly the targets worth an order.
  ghost predicate Lists(
    s: Setting, targets: seq<Target>, sells: seq<PlannedOrder>, sellsAt: seq<nat>, buys: seq<PlannedOrder>, buysAt: seq<nat>)
  {
    && InOrder(s, targets, sells, sellsAt) && InOrder(s, targets, buys, buysAt)
    && (forall k :: 0 <= k < |sells| ==> sells[k].quantity < 0.0)
    && (forall k :: 0 <= k < |buys| ==> buys[k].quantity > 0.0)
    && (forall i: nat :: i in sellsAt || i in buysAt <==> i < |targets| && WorthOrder(s, targets[i]))
  }

  /* ---- One order ---- */

  lemma {:induction false} FoundIsLast(quotes: seq<Quote>, symbol: nat)
    ensures FindQuote(quotes, symbol).Some? ==> QuoteFor(quotes, symbol, FindQuote(quotes, symbol).value)
    ensures forall q :: QuoteFor(quotes, symbol, q) ==> FindQuote(quotes, symbol) == Some(q)
  {
    if quotes != [] {
      var front := DropLast(quotes);
      FoundIsLast(front, symbol);
      if Last(quotes).symbol == symbol {
        assert quotes[|quotes| - 1] == Last(quotes);
      } else if FindQuote(front, symbol).Some? {
        var q := FindQuote(front, symbol).value;
        var k :| 0 <= k < |front| && front[k] == q && forall j :: k < j < |front| ==> front[j].symbol != symbol;
        assert quotes[k] == q && forall j :: k < j < |quotes| ==> quotes[j].symbol != symbol;
      }
      forall q | QuoteFor(quotes, symbol, q) ensures FindQuote(quotes, symbol) == Some(q) {
        var k :| 0 <= k < |quotes| && quotes[k] == q && q.symbol == symbol && forall j :: k < j < |quotes| ==> quotes[j].symbol != symbol;
        if k < |front| {
          assert quotes[|front|].symbol != symbol;
          assert front[k] == q && forall j :: k < j < |front| ==> front[j] == quotes[j];
          assert QuoteFor(front, symbol, q);
        }
      }
    }
  }

  function Unit(q: Quote, eurusd: real): real
    requires eurusd > 0.0
  {
    if q.currency.Eur? then q.price else q.price / eurusd
  }

  lemma UnitIs(q: Quote, eurusd: real)
    requires eurusd > 0.0 && q.price > 0.0
    ensures Unit(q, eurusd) > 0.0 && UnitPrice(q, eurusd, Unit(q, eurusd))
    ensures forall unit :: UnitPrice(q, eurusd, unit) ==> unit == Unit(q, eurusd)
  {
    if q.currency.Usd? {
      var u := q.price / eurusd;
      assert u * eurusd == q.price;
      if u <= 0.0 {
        ProductGrows(u, 0.0, eurusd);
      }
      forall unit | UnitPrice(q, eurusd, unit) ensures unit == u {
        assert (unit - u) * eurusd == 0.0;
      }
    }
  }

  lemma ValueIsUnits(quantity: real, q: Quote, eurusd: real)
    requires eurusd > 0.0
    ensures Value(quantity, q, eurusd) == quantity * Unit(q, eurusd)
  {
    if q.currency.Usd? {
      var u := q.price / eurusd;
      assert u * eurusd == q.price;
      assert quantity * q.price == (quantity * u) * eurusd;
    }
  }

  lemma QuantityIsUnits(money: real, q: Quote, eurusd: real)
    requires eurusd > 0.0 && q.price > 0.0
    ensures Unit(q, eurusd) > 0.0 && QuantityFor(money, q, eurusd) == money / Unit(q, eurusd)
  {
    UnitIs(q, eurusd);
    var x, u := QuantityFor(money, q, eurusd), Unit(q, eurusd);
    if q.currency.Usd? {
      assert u * eurusd == q.price;
      assert x * q.price == money * eurusd;
      assert (x * u - money) * eurusd == 0.0;
      assert x * u == money;
    }
  }

  lemma SizedIs(money: real, unit: real)
    requires unit > 0.0
    ensures Sized(Truncated(money / unit), money, unit)
    ensures forall q :: Sized(q, money, unit) ==> q == Truncated(money / unit)
  {
    hide Truncated, IsWhole;
    var x := money / unit;
    StepsBelow(x);
    SizedFrom(Truncated(x), x, money, unit);
    forall q | Sized(q, money, unit) ensures q == Truncated(x) {
      SizedOnce(q, Truncated(x), money, unit);
    }
  }

  lemma SizedFrom(t: real, x: real, money: real, unit: real)
    requires unit > 0.0 && x == money / unit && IsWhole(t * 10000.0)
    requires x >= 0.0 ==> 0.0 <= t <= x < t + 0.0001
    requires x < 0.0 ==> t - 0.0001 < x <= t <= 0.0
    ensures Sized(t, money, unit)
  {
    hide IsWhole;
    assert x * unit == money;
    if money >= 0.0 {
      QuotientGrows(0.0, money, unit);
      ProductGrows(t, x, unit);
      ProductLess(x, t + 0.0001, unit);
    } else {
      QuotientLess(money, 0.0, unit);
      ProductGrows(x, t, unit);
      ProductLess(t - 0.0001, x, unit);
    }
  }

  lemma ProductLess(a: real, b: real, p: real)
    requires a < b && p > 0.0
    ensures a * p < b * p
  {
    assert (b - a) * p > 0.0;
  }

  lemma QuotientLess(a: real, b: real, d: real)
    requires a < b && d > 0.0
    ensures a / d < b / d
  {
    assert (b - a) / d > 0.0;
    assert (b - a) / d == b / d - a / d;
  }

  // Truncation keeps whole steps, and drops less than one.
  lemma StepsBelow(x: real)
    ensures IsWhole(Truncated(x) * 10000.0)
    ensures x >= 0.0 ==> 0.0 <= Truncated(x) <= x < Truncated(x) + 0.0001
    ensures x < 0.0 ==> Truncated(x) - 0.0001 < x <= Truncated(x) <= 0.0
  {
    hide IsWhole;
    if x >= 0.0 {
      StepsOf(x, (x * 10000.0).Floor);
    } else {
      StepsOf(-x, (-x * 10000.0).Floor);
    }
  }

  // The whole steps in an amount that is not negative.
  lemma StepsOf(x: real, n: int)
    requires x >= 0.0 && n == (x * 10000.0).Floor
    ensures var t := (n as real) / 10000.0;
            IsWhole(t * 10000.0) && IsWhole(-t * 10000.0) && 0.0 <= t <= x < t + 0.0001
  {
    var t := (n as real) / 10000.0;
    assert n as real <= x * 10000.0 < n as real + 1.0;
    WholeOf(n, t * 10000.0);
    WholeOf(-n, -t * 10000.0);
  }

  lemma WholeOf(n: int, x: real)
    requires x == n as real
    ensures IsWhole(x)
  {
  }

  // Two quantities of whole steps differ by a step at least.
  lemma OneStep(a: real, b: real)
    requires a < b && IsWhole(a * 10000.0) && IsWhole(b * 10000.0)
    ensures a + 0.0001 <= b
  {
    var m, n := (a * 10000.0).Floor, (b * 10000.0).Floor;
    assert m < n;
  }

  ghost function Worth(quantity: real, unit: real): real {
    quantity * unit
  }

  lemma NotTwice(a: real, b: real, money: real, unit: real)
    requires unit > 0.0 && Sized(a, money, unit) && Sized(b, money, unit)
    ensures a >= b
  {
    hide IsWhole, Sized, Worth;
    WithinStep(a, b, money, unit);
    StepApart(a, b, unit);
  }

  lemma StepApart(a: real, b: real, unit: real)
    requires unit > 0.0 && IsWhole(a * 10000.0) && IsWhole(b * 10000.0)
    ensures a < b ==> Worth(a, unit) + Worth(0.0001, unit) <= Worth(b, unit)
  {
    hide IsWhole, Worth;
    if a < b {
      OneStep(a, b);
      StepWorth(a, b, unit);
    }
  }

  lemma WithinStep(a: real, b: real, money: real, unit: real)
    requires Sized(a, money, unit) && Sized(b, money, unit)
    ensures IsWhole(a * 10000.0) && IsWhole(b * 10000.0)
    ensures Worth(b, unit) < Worth(a, unit) + Worth(0.0001, unit)
  {
    hide IsWhole, Sized;
    SizedSays(a, money, unit);
    SizedSays(b, money, unit);
  }

  lemma StepWorth(a: real, b: real, unit: real)
    requires unit > 0.0 && a + 0.0001 <= b
    ensures Worth(a, unit) + Worth(0.0001, unit) <= Worth(b, unit)
  {
    ProductGrows(a + 0.0001, b, unit);
    OneUnitMore(a, unit);
  }

  lemma SizedOnce(a: real, b: real, money: real, unit: real)
    requires unit > 0.0 && Sized(a, money, unit) && Sized(b, money, unit)
    ensures a == b
  {
    NotTwice(a, b, money, unit);
    NotTwice(b, a, money, unit);
  }

  // A quantity of whole steps is zero exactly when the money is worth less than one of them.
  lemma ZeroSized(quantity: real, money: real, unit: real)
    requires unit > 0.0 && Sized(quantity, money, unit)
    ensures quantity == 0.0 <==> AbsReal(money) < 0.0001 * unit
    ensures quantity != 0.0 <==> AbsReal(quantity) >= 0.00000001
    ensures quantity < 0.0 ==> money < 0.0
    ensures quantity > 0.0 ==> money > 0.0
  {
    hide IsWhole, AbsReal, Sized;
    SizedSays(quantity, money, unit);
    WorthOf(quantity, unit);
    BySteps(quantity, money, quantity * unit, 0.0001 * unit);
  }

  lemma SizedSays(quantity: real, money: real, unit: real)
    requires Sized(quantity, money, unit)
    ensures IsWhole(quantity * 10000.0)
    ensures var worth, step := quantity * unit, 0.0001 * unit;
            if money >= 0.0 then quantity >= 0.0 && worth <= money < worth + step else quantity <= 0.0 && worth - step < money <= worth
  {
    hide IsWhole;
    OneUnitMore(quantity, unit);
  }

  lemma WorthOf(quantity: real, unit: real)
    requires unit > 0.0 && IsWhole(quantity * 10000.0)
    ensures 0.0001 * unit > 0.0
    ensures var worth, step := quantity * unit, 0.0001 * unit;
            if quantity > 0.0 then quantity >= 0.0001 && worth >= step
            else if quantity < 0.0 then quantity <= -0.0001 && worth <= -step
            else worth == 0.0
  {
    hide IsWhole;
    ZeroIsWhole();
    ZeroTimes(unit);
    if quantity > 0.0 {
      OneStep(0.0, quantity);
      ProductGrows(0.0001, quantity, unit);
    } else if quantity < 0.0 {
      OneStep(quantity, 0.0);
      ProductGrows(quantity, -0.0001, unit);
      Negated(unit);
    }
  }

  lemma Negated(unit: real)
    ensures -0.0001 * unit == -(0.0001 * unit)
  {
  }

  lemma ZeroTimes(unit: real)
    ensures 0.0 * unit == 0.0
  {
  }

  lemma OneUnitMore(quantity: real, unit: real)
    ensures (quantity + 0.0001) * unit == quantity * unit + 0.0001 * unit
    ensures (quantity - 0.0001) * unit == quantity * unit - 0.0001 * unit
  {
  }

  lemma BySteps(quantity: real, money: real, worth: real, step: real)
    requires step > 0.0
    requires if money >= 0.0 then quantity >= 0.0 && worth <= money < worth + step else quantity <= 0.0 && worth - step < money <= worth
    requires if quantity > 0.0 then quantity >= 0.0001 && worth >= step
             else if quantity < 0.0 then quantity <= -0.0001 && worth <= -step
             else worth == 0.0
    ensures quantity == 0.0 <==> AbsReal(money) < step
    ensures quantity != 0.0 <==> AbsReal(quantity) >= 0.00000001
    ensures quantity < 0.0 ==> money < 0.0
    ensures quantity > 0.0 ==> money > 0.0
  {
  }

  lemma ZeroIsWhole()
    ensures IsWhole(0.0 * 10000.0)
  {
  }

  lemma SettingOf(s: Setting) returns (usable: Setting)
    requires s.eurusd > 0.0 || forall i :: 0 <= i < |s.quotes| ==> s.quotes[i].currency.Eur?
    ensures usable == if s.eurusd > 0.0 then s else s.(eurusd := 1.0)
    ensures forall q, unit :: q in s.quotes ==> (UnitPrice(q, usable.eurusd, unit) <==> UnitPrice(q, s.eurusd, unit))
  {
    usable := if s.eurusd > 0.0 then s else s.(eurusd := 1.0);
  }

  // The order for a target, told by the price of a unit.
  lemma OrderForIs(s: Setting, t: Target, q: Quote)
    requires s.eurusd > 0.0 && q.price > 0.0
    ensures var unit := Unit(q, s.eurusd); var missing := Missing(s, t, q, unit); var money := Money(s, missing);
            && unit > 0.0
            && OrderFor(s, t, q) ==
               if !OutOfTolerance(s, missing) || AbsReal(money) < 0.0001 * unit then None
               else Some(PlannedOrder(t.symbol, q.ticker, Truncated(money / unit), AbsReal(money), missing))
  {
    hide Truncated, Sized, QuantityFor, Unit, AbsReal, Money, Effective, Missing, Delta, OutOfTolerance;
    var unit := Unit(q, s.eurusd);
    var missing := Missing(s, t, q, unit);
    var money := Money(s, missing);
    MissingIs(s, t, q);
    MoneyIs(s, missing);
    QuantityIsUnits(money, q, s.eurusd);
    SizedIs(money, unit);
    ZeroSized(Truncated(money / unit), money, unit);
    ToleranceIs(s, missing);
  }

  lemma MissingIs(s: Setting, t: Target, q: Quote)
    requires s.eurusd > 0.0
    ensures Delta(s, t, q) == Missing(s, t, q, Unit(q, s.eurusd))
  {
    hide Value, Unit;
    ValueIsUnits(Held(s.holdings, q.ticker), q, s.eurusd);
  }

  lemma ToleranceIs(s: Setting, missing: real)
    ensures OutOfTolerance(s, missing) <==> AbsReal(missing) > s.nav * s.tolerance
  {
  }

  lemma MoneyIs(s: Setting, missing: real)
    ensures Effective(s, missing) == Money(s, missing)
  {
  }

  // For one target: the order planned is the one the quote calls for, or there is none to plan.
  lemma OneOrder(s: Setting, t: Target, q: Quote)
    requires s.eurusd > 0.0 && q.price > 0.0 && FindQuote(s.quotes, t.symbol) == Some(q)
    ensures OrderFor(s, t, q).Some? <==> WorthOrder(s, t)
    ensures OrderFor(s, t, q).Some? ==> OrderIs(s, t, OrderFor(s, t, q).value)
    ensures forall o :: OrderIs(s, t, o) ==> OrderFor(s, t, q) == Some(o)
  {
    hide FindQuote, Truncated, Sized, QuoteFor, UnitPrice, OrderFor, Missing, Money, Unit, OutOfTolerance, AbsReal;
    var unit := Unit(q, s.eurusd);
    UnitIs(q, s.eurusd);
    FoundIsLast(s.quotes, t.symbol);
    OrderForIs(s, t, q);
    var missing := Missing(s, t, q, unit);
    var money := Money(s, missing);
    SizedIs(money, unit);
    ZeroSized(Truncated(money / unit), money, unit);
    if OrderFor(s, t, q).Some? {
      assert OrderAt(s, t, q, unit, OrderFor(s, t, q).value);
    }
    forall o | OrderIs(s, t, o) ensures OrderFor(s, t, q) == Some(o) {
      var p, u :| QuoteFor(s.quotes, t.symbol, p) && UnitPrice(p, s.eurusd, u) && OrderAt(s, t, p, u, o);
      assert p == q && u == unit;
      ZeroSized(o.quantity, money, unit);
    }
  }

  /* ---- All orders ---- */

  // An order goes behind the sells if it sells, and to the end if it buys.
  lemma {:induction false} InsertOrder(sells: seq<PlannedOrder>, buys: seq<PlannedOrder>, o: PlannedOrder)
    requires forall k :: 0 <= k < |sells| ==> sells[k].quantity < 0.0
    requires forall k :: 0 <= k < |buys| ==> buys[k].quantity > 0.0
    requires o.quantity != 0.0
    ensures Insert(SellsFirst, sells + buys, o) == if o.quantity < 0.0 then sells + [o] + buys else sells + (buys + [o])
    decreases |buys|
  {
    if buys == [] {
      assert sells + buys == sells;
    } else if o.quantity < 0.0 {
      InsertOrder(sells, DropLast(buys), o);
      assert DropLast(sells + buys) == sells + DropLast(buys);
      assert buys == DropLast(buys) + [Last(buys)];
    }
  }

  // One more target with an order.
  lemma OneMore(s: Setting, targets: seq<Target>, orders: seq<PlannedOrder>, at: seq<nat>, o: PlannedOrder)
    requires targets != [] && InOrder(s, DropLast(targets), orders, at) && OrderIs(s, Last(targets), o)
    ensures InOrder(s, targets, orders, at) && InOrder(s, targets, orders + [o], at + [|targets| - 1])
  {
    hide OrderIs;
    assert targets == DropLast(targets) + [Last(targets)];
  }

  lemma NoMore(s: Setting, targets: seq<Target>, orders: seq<PlannedOrder>, at: seq<nat>)
    requires targets != [] && InOrder(s, DropLast(targets), orders, at)
    ensures InOrder(s, targets, orders, at)
  {
    hide OrderIs;
    assert targets == DropLast(targets) + [Last(targets)];
  }

  // The targets covered, with the last one added exactly if it is worth an order.
  lemma CoversMore(s: Setting, targets: seq<Target>, before: seq<nat>, other: seq<nat>, after: seq<nat>)
    requires targets != []
    requires forall i: nat :: i in before || i in other <==> i < |targets| - 1 && WorthOrder(s, DropLast(targets)[i])
    requires after == if WorthOrder(s, Last(targets)) then before + [|targets| - 1] else before
    ensures forall i: nat :: i in after || i in other <==> i < |targets| && WorthOrder(s, targets[i])
  {
    hide WorthOrder;
    assert targets == DropLast(targets) + [Last(targets)];
  }

  // Every target has a quote.
  ghost predicate AllQuoted(s: Setting, targets: seq<Target>) {
    forall i :: 0 <= i < |targets| ==> Quoted(s.quotes, targets[i].symbol)
  }

  ghost predicate Quoted(quotes: seq<Quote>, symbol: nat) {
    exists k :: 0 <= k < |quotes| && quotes[k].symbol == symbol
  }

  lemma QuotedIff(quotes: seq<Quote>, symbol: nat)
    ensures FindQuote(quotes, symbol).Some? <==> Quoted(quotes, symbol)
  {
    if FindQuote(quotes, symbol).Some? {
      var q := FindQuote(quotes, symbol).value;
      var k :| 0 <= k < |quotes| && quotes[k] == q;
    }
  }

  // One more order, put where it belongs.
  lemma OneMoreListed(
    s: Setting, targets: seq<Target>, before: seq<PlannedOrder>, o: PlannedOrder,
    sells: seq<PlannedOrder>, sellsAt: seq<nat>, buys: seq<PlannedOrder>, buysAt: seq<nat>)
    requires targets != [] && Lists(s, DropLast(targets), sells, sellsAt, buys, buysAt) && Sort(SellsFirst, before) == sells + buys
    requires OrderIs(s, Last(targets), o) && WorthOrder(s, Last(targets))
    ensures var i: nat := |targets| - 1;
            if o.quantity < 0.0 then
              Lists(s, targets, sells + [o], sellsAt + [i], buys, buysAt) && Sort(SellsFirst, before + [o]) == (sells + [o]) + buys
            else
              Lists(s, targets, sells, sellsAt, buys + [o], buysAt + [i]) && Sort(SellsFirst, before + [o]) == sells + (buys + [o])
  {
    hide WorthOrder, OrderIs, InOrder, Insert;
    NotZero(s, Last(targets), o);
    NoMore(s, targets, sells, sellsAt);
    NoMore(s, targets, buys, buysAt);
    InsertOrder(sells, buys, o);
    assert DropLast(before + [o]) == before;
    if o.quantity < 0.0 {
      OneMore(s, targets, sells, sellsAt, o);
      CoversMore(s, targets, sellsAt, buysAt, sellsAt + [|targets| - 1]);
    } else {
      OneMore(s, targets, buys, buysAt, o);
      CoversMore(s, targets, buysAt, sellsAt, buysAt + [|targets| - 1]);
    }
  }

  lemma NoneListed(
    s: Setting, targets: seq<Target>, sells: seq<PlannedOrder>, sellsAt: seq<nat>, buys: seq<PlannedOrder>, buysAt: seq<nat>)
    requires targets != [] && Lists(s, DropLast(targets), sells, sellsAt, buys, buysAt) && !WorthOrder(s, Last(targets))
    ensures Lists(s, targets, sells, sellsAt, buys, buysAt)
  {
    hide WorthOrder, InOrder;
    NoMore(s, targets, sells, sellsAt);
    NoMore(s, targets, buys, buysAt);
    CoversMore(s, targets, sellsAt, buysAt, sellsAt);
  }

  lemma {:induction false} OrdersList(s: Setting, targets: seq<Target>)
    returns (sells: seq<PlannedOrder>, sellsAt: seq<nat>, buys: seq<PlannedOrder>, buysAt: seq<nat>)
    requires s.eurusd > 0.0 && PositivePrices(s.quotes)
    ensures Orders(s, targets).Ok? <==> AllQuoted(s, targets)
    ensures Orders(s, targets).Err? ==> Orders(s, targets).error.MissingQuote?
    ensures Orders(s, targets).Ok? ==>
              Lists(s, targets, sells, sellsAt, buys, buysAt) && Sort(SellsFirst, Orders(s, targets).value) == sells + buys
  {
    hide OrderFor, FindQuote, WorthOrder, OrderIs, PositivePrices, Lists, AllQuoted;
    sells, sellsAt, buys, buysAt := [], [], [], [];
    if targets == [] {
      EmptyList(s);
    } else {
      hide Sort;
      var front, t := DropLast(targets), Last(targets);
      sells, sellsAt, buys, buysAt := OrdersList(s, front);
      QuotedIff(s.quotes, t.symbol);
      QuotedLast(s, targets);
      if AllQuoted(s, targets) {
        var q := FindQuote(s.quotes, t.symbol).value;
        PriceAt(s.quotes, q);
        OneOrder(s, t, q);
        match OrderFor(s, t, q)
        case None => NoneListed(s, targets, sells, sellsAt, buys, buysAt);
        case Some(o) =>
          OneMoreListed(s, targets, Orders(s, front).value, o, sells, sellsAt, buys, buysAt);
          if o.quantity < 0.0 {
            sells, sellsAt := sells + [o], sellsAt + [|targets| - 1];
          } else {
            buys, buysAt := buys + [o], buysAt + [|targets| - 1];
          }
      }
    }
  }

  lemma EmptyList(s: Setting)
    ensures Lists(s, [], [], [], [], []) && AllQuoted(s, [])
  {
  }

  lemma QuotedLast(s: Setting, targets: seq<Target>)
    requires targets != []
    ensures AllQuoted(s, targets) <==> AllQuoted(s, DropLast(targets)) && Quoted(s.quotes, Last(targets).symbol)
  {
    hide Quoted;
    assert targets == DropLast(targets) + [Last(targets)];
  }

  lemma NotZero(s: Setting, t: Target, o: PlannedOrder)
    requires OrderIs(s, t, o)
    ensures o.quantity != 0.0
  {
  }

  // When orders can be planned at all.
  ghost predicate CanPlan(s: Setting, targets: seq<Target>) {
    && s.nav > 0.0 && 0.95 <= Weights(targets) <= 1.0000001
    && (s.eurusd > 0.0 || forall i :: 0 <= i < |s.quotes| ==> s.quotes[i].currency.Eur?)
    && (forall i :: 0 <= i < |s.quotes| ==> s.quotes[i].price > 0.0)
    && AllQuoted(s, targets)
  }

  // The orders are exactly those of the targets worth one, each sized by what is missing to its
  // weight, the sells before the buys and otherwise in the order of the targets.
  lemma OrdersPlanned(s: Setting, targets: seq<Target>)
    returns (sells: seq<PlannedOrder>, sellsAt: seq<nat>, buys: seq<PlannedOrder>, buysAt: seq<nat>)
    ensures MakeOrders(s, targets).Ok? <==> CanPlan(s, targets)
    ensures MakeOrders(s, targets).Ok? ==>
              MakeOrders(s, targets).value == sells + buys && Lists(s, targets, sells, sellsAt, buys, buysAt)
  {
    hide Weights, Orders, Lists, Sort;
    sells, sellsAt, buys, buysAt := [], [], [], [];
    if s.nav > 0.0 && 0.95 <= Weights(targets) <= 1.0000001 && PositivePrices(s.quotes)
       && (s.eurusd > 0.0 || forall i :: 0 <= i < |s.quotes| ==> s.quotes[i].currency.Eur?)
    {
      var usable := SettingOf(s);
      sells, sellsAt, buys, buysAt := OrdersList(usable, targets);
      assert AllQuoted(usable, targets) <==> AllQuoted(s, targets);
      if Orders(usable, targets).Ok? {
        UsableLists(s, usable, targets, sells, sellsAt, buys, buysAt);
      }
    }
  }

  // Without dollar quotes the exchange rate does not matter.
  lemma UsableLists(
    s: Setting, usable: Setting, targets: seq<Target>,
    sells: seq<PlannedOrder>, sellsAt: seq<nat>, buys: seq<PlannedOrder>, buysAt: seq<nat>)
    requires usable == s.(eurusd := usable.eurusd) && Lists(usable, targets, sells, sellsAt, buys, buysAt)
    requires forall q, unit :: q in s.quotes ==> (UnitPrice(q, usable.eurusd, unit) <==> UnitPrice(q, s.eurusd, unit))
    ensures Lists(s, targets, sells, sellsAt, buys, buysAt)
  {
    hide UnitPrice, OrderIs, WorthOrder;
    forall t, o ensures OrderIs(usable, t, o) ==> OrderIs(s, t, o) {
      UsableOrder(s, usable, t, o);
    }
    forall t ensures WorthOrder(usable, t) <==> WorthOrder(s, t) {
      UsableWorth(s, usable, t);
    }
  }

  lemma UsableOrder(s: Setting, usable: Setting, t: Target, o: PlannedOrder)
    requires usable == s.(eurusd := usable.eurusd)
    requires forall q, unit :: q in s.quotes ==> (UnitPrice(q, usable.eurusd, unit) <==> UnitPrice(q, s.eurusd, unit))
    ensures OrderIs(usable, t, o) ==> OrderIs(s, t, o)
  {
    hide UnitPrice, OrderAt;
    if OrderIs(usable, t, o) {
      var q, unit :| QuoteFor(usable.quotes, t.symbol, q) && UnitPrice(q, usable.eurusd, unit) && OrderAt(usable, t, q, unit, o);
      OrderSame(s, usable, t, q, unit, o);
      assert QuoteFor(s.quotes, t.symbol, q) && q in s.quotes && UnitPrice(q, s.eurusd, unit) && OrderAt(s, t, q, unit, o);
    }
  }

  lemma OrderSame(s: Setting, usable: Setting, t: Target, q: Quote, unit: real, o: PlannedOrder)
    requires usable == s.(eurusd := usable.eurusd)
    ensures OrderAt(usable, t, q, unit, o) <==> OrderAt(s, t, q, unit, o)
  {
    hide Sized, AbsReal;
    assert Missing(usable, t, q, unit) == Missing(s, t, q, unit);
    assert Money(usable, o.delta) == Money(s, o.delta);
  }

  lemma UsableWorth(s: Setting, usable: Setting, t: Target)
    requires usable == s.(eurusd := usable.eurusd)
    requires forall q, unit :: q in s.quotes ==> (UnitPrice(q, usable.eurusd, unit) <==> UnitPrice(q, s.eurusd, unit))
    ensures WorthOrder(usable, t) <==> WorthOrder(s, t)
  {
    hide UnitPrice, WorthAt;
    forall q, unit ensures WorthAt(usable, t, q, unit) <==> WorthAt(s, t, q, unit) {
      WorthSame(s, usable, t, q, unit);
    }
    if WorthOrder(usable, t) {
      var q, unit :| QuoteFor(usable.quotes, t.symbol, q) && UnitPrice(q, usable.eurusd, unit) && WorthAt(usable, t, q, unit);
      assert QuoteFor(s.quotes, t.symbol, q) && UnitPrice(q, s.eurusd, unit) && WorthAt(s, t, q, unit);
    }
    if WorthOrder(s, t) {
      var q, unit :| QuoteFor(s.quotes, t.symbol, q) && UnitPrice(q, s.eurusd, unit) && WorthAt(s, t, q, unit);
      assert QuoteFor(usable.quotes, t.symbol, q) && UnitPrice(q, usable.eurusd, unit) && WorthAt(usable, t, q, unit);
    }
  }

  lemma WorthSame(s: Setting, usable: Setting, t: Target, q: Quote, unit: real)
    requires usable == s.(eurusd := usable.eurusd)
    ensures WorthAt(usable, t, q, unit) <==> WorthAt(s, t, q, unit)
  {
  }

  // With weights that are not negative, nothing is sold beyond what is held.
  lemma NothingOversold(s: Setting, targets: seq<Target>)
    requires MakeOrders(s, targets).Ok? && s.buffer >= 0.0 && forall i :: 0 <= i < |targets| ==> targets[i].weight >= 0.0
    ensures forall k :: 0 <= k < |MakeOrders(s, targets).value| ==>
              var o := MakeOrders(s, targets).value[k]; -o.quantity <= (if o.quantity < 0.0 then Held(s.holdings, o.ticker) else 0.0)
  {
    hide MakeOrders, OrderIs, WorthOrder;
    var sells, sellsAt, buys, buysAt := OrdersPlanned(s, targets);
    var r := MakeOrders(s, targets).value;
    forall k | 0 <= k < |r| ensures -r[k].quantity <= (if r[k].quantity < 0.0 then Held(s.holdings, r[k].ticker) else 0.0) {
      if k < |sells| {
        SoldWithin(s, targets[sellsAt[k]], sells[k]);
      }
    }
  }

  lemma SoldWithin(s: Setting, t: Target, o: PlannedOrder)
    requires OrderIs(s, t, o) && t.weight >= 0.0 && s.nav > 0.0 && s.buffer >= 0.0
    requires s.eurusd > 0.0 || forall i :: 0 <= i < |s.quotes| ==> s.quotes[i].currency.Eur?
    requires PositivePrices(s.quotes)
    ensures o.quantity < 0.0 ==> -o.quantity <= Held(s.holdings, o.ticker)
  {
    hide OrderAt, Sized;
    var q, unit :| QuoteFor(s.quotes, t.symbol, q) && UnitPrice(q, s.eurusd, unit) && OrderAt(s, t, q, unit, o);
    UnitPositive(s, t, q, unit);
    hide UnitPrice, QuoteFor;
    OrderMoney(s, t, q, unit, o);
    ZeroSized(o.quantity, Money(s, o.delta), unit);
    if o.quantity < 0.0 {
      NegativeMoney(s, o.delta);
      ProductGrows(0.0, t.weight, s.nav);
      BelowWorth(o.quantity, o.delta, unit);
      SoldMoney(o.quantity, Held(s.holdings, o.ticker), unit, s.nav * t.weight);
      Covers(-o.quantity, Held(s.holdings, o.ticker), unit);
    }
  }

  lemma UnitPositive(s: Setting, t: Target, q: Quote, unit: real)
    requires QuoteFor(s.quotes, t.symbol, q) && UnitPrice(q, s.eurusd, unit) && PositivePrices(s.quotes)
    requires s.eurusd > 0.0 || forall i :: 0 <= i < |s.quotes| ==> s.quotes[i].currency.Eur?
    ensures unit > 0.0
  {
    hide UnitPrice;
    var k :| 0 <= k < |s.quotes| && s.quotes[k] == q;
    var usable := SettingOf(s);
    UnitIs(q, usable.eurusd);
  }

  lemma OrderMoney(s: Setting, t: Target, q: Quote, unit: real, o: PlannedOrder)
    requires OrderAt(s, t, q, unit, o)
    ensures o.delta == s.nav * t.weight - Held(s.holdings, o.ticker) * unit && Sized(o.quantity, Money(s, o.delta), unit)
  {
    hide Sized, AbsReal;
  }

  lemma BelowWorth(quantity: real, money: real, unit: real)
    requires Sized(quantity, money, unit) && money < 0.0
    ensures money <= quantity * unit
  {
    hide IsWhole;
  }

  lemma SoldMoney(quantity: real, held: real, unit: real, wanted: real)
    requires wanted >= 0.0 && wanted - held * unit <= quantity * unit
    ensures -quantity * unit <= held * unit
  {
    assert -quantity * unit == -(quantity * unit);
  }

  lemma NegativeMoney(s: Setting, missing: real)
    requires s.buffer >= 0.0
    ensures Money(s, missing) < 0.0 ==> missing < 0.0
  {
    if missing >= 0.0 {
      assert s.buffer * missing >= 0.0;
    }
  }

  lemma Covers(sold: real, held: real, unit: real)
    requires unit > 0.0 && sold * unit <= held * unit
    ensures sold <= held
  {
    if sold > held {
      ProductLess(held, sold, unit);
    }
  }
}
