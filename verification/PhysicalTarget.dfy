// src/sp1execution/recovery/physical_target_v01.py over exact reals: how the recovery sleeve
// is brought to its target weight, reserve first, and what that conserves.
module PhysicalTarget {
  import opened Common

  datatype Holding = Holding(symbol: nat, value: real)

  datatype TargetError =
    | WeightOutOfRange | DuplicateSymbol | NegativeValue | NavNotPositive | InsufficientSp2
    | NoPositiveSp2 | NegativeAmount | NothingToAllocate | WeightsRequired | WeightsNotOne

  datatype Direction = NoChange | IncreaseRecovery | DecreaseRecovery

  datatype Plan = Plan(
    direction: Direction, nav: real, target: real, reserveUsed: real, reserveAfter: real,
    sp2SaleTotal: real, sp2Sales: seq<Holding>, recoveryBuy: real, recoverySell: real,
    sp2BuyTotal: real, sp2Buys: seq<Holding>)

  const EPS := 0.000000001

  const WEIGHT_SLACK := 0.000001

  predicate BySymbol(a: Holding, b: Holding) {
    a.symbol <= b.symbol
  }

  function Total(rows: seq<Holding>): real {
    if rows == [] then 0.0 else Total(DropLast(rows)) + Last(rows).value
  }

  // _clean_nonnegative_mapping
  function Clean(rows: seq<Holding>): Result<seq<Holding>, TargetError> {
    if exists i, j :: 0 <= i < j < |rows| && rows[i].symbol == rows[j].symbol then Err(DuplicateSymbol)
    else if exists i :: 0 <= i < |rows| && rows[i].value < 0.0 then Err(NegativeValue)
    else Ok(Sort(BySymbol, rows))
  }

  function Part(row: Holding, total: real): Holding
    requires total > 0.0
  {
    row.(value := row.value / total)
  }

  function Scale(rows: seq<Holding>, total: real): seq<Holding>
    requires total > 0.0
  {
    seq(|rows|, i requires 0 <= i < |rows| => Part(rows[i], total))
  }

  function Held(rows: seq<Holding>): seq<Holding> {
    if rows == [] then []
    else Held(DropLast(rows)) + if Last(rows).value > 0.0 then [Last(rows)] else []
  }

  // _current_sp2_weights
  function CurrentWeights(holdings: seq<Holding>): Result<seq<Holding>, TargetError> {
    if Total(holdings) <= EPS then Err(NoPositiveSp2) else Ok(Scale(Held(holdings), Total(holdings)))
  }

  // _validated_weights
  function ReturnWeights(raw: seq<Holding>): Result<seq<Holding>, TargetError> {
    var cleaned :- Clean(raw);
    if cleaned == [] || Total(cleaned) <= 0.0 then Err(WeightsRequired)
    else if Total(cleaned) - 1.0 > WEIGHT_SLACK || 1.0 - Total(cleaned) > WEIGHT_SLACK then Err(WeightsNotOne)
    else Ok(Scale(cleaned, Total(cleaned)))
  }

  function Share(amount: real, weight: Holding): Holding {
    weight.(value := amount * weight.value)
  }

  function Shares(amount: real, weights: seq<Holding>): seq<Holding> {
    seq(|weights|, i requires 0 <= i < |weights| => Share(amount, weights[i]))
  }

  // _allocate_exact: the last symbol takes what remains.
  function Allocate(amount: real, weights: seq<Holding>): Result<seq<Holding>, TargetError> {
    if amount < 0.0 then Err(NegativeAmount)
    else if amount <= EPS then Ok([])
    else if weights == [] then Err(NothingToAllocate)
    else
      var shares := Shares(amount, DropLast(weights));
      Ok(shares + [Last(weights).(value := amount - Total(shares))])
  }

  method AllocateExact(amount: real, weights: seq<Holding>) returns (r: Result<seq<Holding>, TargetError>)
    ensures r == Allocate(amount, weights)
  {
    hide Share;
    if amount < 0.0 {
      return Err(NegativeAmount);
    }
    if amount <= EPS {
      return Ok([]);
    }
    if weights == [] {
      return Err(NothingToAllocate);
    }
    var rows: seq<Holding>, remaining, keys := [], amount, DropLast(weights);
    for i := 0 to |keys|
      invariant rows == Shares(amount, keys[..i])
      invariant remaining == amount - Total(rows)
    {
      var row := Share(amount, keys[i]);
      assert Shares(amount, keys[..i + 1]) == rows + [row];
      assert DropLast(rows + [row]) == rows;
      rows := rows + [row];
      remaining := remaining - row.value;
    }
    assert keys[..|keys|] == keys;
    return Ok(rows + [Last(weights).(value := remaining)]);
  }

  // The plan once NAV and target are known.
  function PlanFor(nav: real, target: real, holdings: seq<Holding>, recovery: real, reserve: real, returnWeights: seq<Holding>):
    Result<Plan, TargetError>
  {
    var delta := target - recovery;
    if -EPS <= delta <= EPS then
      Ok(Plan(NoChange, nav, target, 0.0, reserve, 0.0, [], 0.0, 0.0, 0.0, []))
    else if delta > 0.0 then
      var used := if reserve <= delta then reserve else delta;
      var needed := delta - used;
      if needed > Total(holdings) + EPS then Err(InsufficientSp2)
      else if needed <= EPS then
        Ok(Plan(IncreaseRecovery, nav, target, used, reserve - used, needed, [], delta, 0.0, 0.0, []))
      else
        var weights :- CurrentWeights(holdings);
        var sales :- Allocate(needed, weights);
        Ok(Plan(IncreaseRecovery, nav, target, used, reserve - used, needed, sales, delta, 0.0, 0.0, []))
    else
      var weights :- ReturnWeights(returnWeights);
      var buys :- Allocate(-delta, weights);
      Ok(Plan(DecreaseRecovery, nav, target, 0.0, reserve, 0.0, [], 0.0, -delta, -delta, buys))
  }

  function TargetOf(nav: real, weight: real): real {
    nav * weight
  }

  // construct_physical_target
  function Construct(weight: real, sp2: seq<Holding>, recovery: real, reserve: real, returnWeights: seq<Holding>):
    Result<Plan, TargetError>
  {
    if weight < 0.0 || weight > 1.0 then Err(WeightOutOfRange)
    else
      var holdings :- Clean(sp2);
      if recovery < 0.0 || reserve < 0.0 then Err(NegativeValue)
      else
        var nav := Total(holdings) + recovery + reserve;
        if nav <= 0.0 then Err(NavNotPositive)
        else PlanFor(nav, TargetOf(nav, weight), holdings, recovery, reserve, returnWeights)
  }

  /* ---- Sums ---- */

  lemma {:induction false} InsertTotal(s: seq<Holding>, x: Holding)
    ensures Total(Insert(BySymbol, s, x)) == Total(s) + x.value
  {
    if s == [] {
      assert DropLast([x]) == [];
    } else if BySymbol(Last(s), x) {
      assert DropLast(s + [x]) == s;
    } else {
      InsertTotal(DropLast(s), x);
      assert DropLast(Insert(BySymbol, DropLast(s), x) + [Last(s)]) == Insert(BySymbol, DropLast(s), x);
    }
  }

  lemma {:induction false} SortTotal(s: seq<Holding>)
    ensures Total(Sort(BySymbol, s)) == Total(s)
  {
    if s != [] {
      SortTotal(DropLast(s));
      InsertTotal(Sort(BySymbol, DropLast(s)), Last(s));
    }
  }

  ghost predicate NotNegative(rows: seq<Holding>) {
    forall i :: 0 <= i < |rows| ==> rows[i].value >= 0.0
  }

  lemma CleanKeeps(rows: seq<Holding>)
    requires Clean(rows).Ok?
    ensures NotNegative(Clean(rows).value) && Total(Clean(rows).value) == Total(rows)
    ensures forall x :: x in Clean(rows).value <==> x in rows
  {
    SortTotal(rows);
    var cleaned := Clean(rows).value;
    forall x ensures x in cleaned <==> x in rows {
      SortMembers(BySymbol, rows, x);
    }
    forall i | 0 <= i < |cleaned| ensures cleaned[i].value >= 0.0 {
      assert cleaned[i] in rows;
    }
  }

  lemma {:induction false} TotalNotNegative(rows: seq<Holding>)
    requires NotNegative(rows)
    ensures Total(rows) >= 0.0
  {
    if rows != [] {
      TotalNotNegative(DropLast(rows));
    }
  }

  lemma {:induction false} HeldTotal(rows: seq<Holding>)
    requires NotNegative(rows)
    ensures Total(Held(rows)) == Total(rows)
  {
    if rows != [] {
      HeldTotal(DropLast(rows));
      var held := Held(DropLast(rows));
      assert rows[|rows| - 1].value >= 0.0;
      assert DropLast(held + [Last(rows)]) == held;
      assert held + [] == held;
    }
  }

  lemma {:induction false} HeldRows(rows: seq<Holding>)
    ensures forall i :: 0 <= i < |Held(rows)| ==> Held(rows)[i].value > 0.0 && Held(rows)[i] in rows
  {
    if rows != [] {
      HeldRows(DropLast(rows));
      assert rows == DropLast(rows) + [Last(rows)];
    }
  }

  lemma SelfDivided(x: real)
    requires x > 0.0
    ensures x / x == 1.0
  {
  }

  lemma DivideSum(a: real, b: real, total: real)
    requires total > 0.0
    ensures (a + b) / total == a / total + b / total
  {
  }

  lemma {:induction false} ScaleTotal(rows: seq<Holding>, total: real)
    requires total > 0.0
    ensures Total(Scale(rows, total)) == Total(rows) / total
  {
    if rows == [] {
      assert 0.0 / total == 0.0;
    } else {
      ScaleTotal(DropLast(rows), total);
      ScaleFront(rows, total);
      DivideSum(Total(DropLast(rows)), Last(rows).value, total);
    }
  }

  lemma ScaleFront(rows: seq<Holding>, total: real)
    requires total > 0.0 && rows != []
    ensures DropLast(Scale(rows, total)) == Scale(DropLast(rows), total)
  {
    hide Part;
  }

  // Allocations sum to the amount, whatever the weights and however many symbols.
  lemma AllocationsSum(amount: real, weights: seq<Holding>)
    requires Allocate(amount, weights).Ok?
    ensures amount > EPS ==> Total(Allocate(amount, weights).value) == amount
    ensures amount <= EPS ==> Allocate(amount, weights).value == []
  {
    hide Share;
    if amount > EPS {
      var shares := Shares(amount, DropLast(weights));
      var rows := Allocate(amount, weights).value;
      assert DropLast(rows) == shares;
    }
  }

  lemma {:induction false} SharesTotal(amount: real, weights: seq<Holding>)
    ensures Total(Shares(amount, weights)) == amount * Total(weights)
  {
    if weights == [] {
      assert amount * 0.0 == 0.0;
    } else {
      SharesTotal(amount, DropLast(weights));
      SharesFront(amount, weights);
      MultiplySum(amount, Total(DropLast(weights)), Last(weights).value);
    }
  }

  lemma SharesFront(amount: real, weights: seq<Holding>)
    requires weights != []
    ensures DropLast(Shares(amount, weights)) == Shares(amount, DropLast(weights))
    ensures Last(Shares(amount, weights)) == Share(amount, Last(weights))
  {
    hide Share;
  }

  lemma MultiplySum(amount: real, a: real, b: real)
    ensures amount * (a + b) == amount * a + amount * b
  {
  }

  // With weights that sum to one, each symbol gets exactly its share.
  lemma AllocationIsShare(amount: real, weights: seq<Holding>)
    requires amount > EPS && weights != [] && Total(weights) == 1.0
    ensures Allocate(amount, weights) == Ok(Shares(amount, weights))
  {
    SharesTotal(amount, DropLast(weights));
    SharesFront(amount, weights);
    MultiplySum(amount, Total(DropLast(weights)), Last(weights).value);
    assert Share(amount, Last(weights)) == Last(weights).(value := amount - Total(Shares(amount, DropLast(weights))));
    hide Share;
    assert Shares(amount, weights) == DropLast(Shares(amount, weights)) + [Last(Shares(amount, weights))];
  }

  /* ---- Sales ---- */

  lemma SalePerSymbol(needed: real, total: real, h: Holding)
    requires 0.0 <= needed <= total && total > 0.0 && h.value >= 0.0
    ensures var sale := Share(needed, Part(h, total)); sale.symbol == h.symbol && 0.0 <= sale.value <= h.value
  {
    var w := h.value / total;
    assert w >= 0.0;
    assert w * total == h.value;
    assert (total - needed) * w >= 0.0;
    assert needed * w >= 0.0;
  }

  lemma CurrentWeightsAre(holdings: seq<Holding>)
    requires NotNegative(holdings) && Total(holdings) > EPS
    ensures var weights := Scale(Held(holdings), Total(holdings));
            CurrentWeights(holdings) == Ok(weights) && weights != [] && Total(weights) == 1.0
  {
    hide Part;
    HeldTotal(holdings);
    ScaleTotal(Held(holdings), Total(holdings));
    SelfDivided(Total(holdings));
    assert Total([]) == 0.0;
  }

  // Selling a part of the holdings: each symbol sold by its weight, none beyond what is held.
  lemma SalesWithinHoldings(holdings: seq<Holding>, needed: real)
    requires NotNegative(holdings) && EPS < needed <= Total(holdings)
    ensures CurrentWeights(holdings).Ok? && Allocate(needed, CurrentWeights(holdings).value).Ok?
    ensures var sales := Allocate(needed, CurrentWeights(holdings).value).value;
            && Total(sales) == needed
            && (forall i :: 0 <= i < |sales| ==> sales[i].value >= 0.0)
            && (forall i :: 0 <= i < |sales| ==>
                  exists h :: h in holdings && h.symbol == sales[i].symbol && sales[i].value <= h.value)
  {
    hide Share, Part, CurrentWeights, Allocate;
    var total, held := Total(holdings), Held(holdings);
    HeldRows(holdings);
    CurrentWeightsAre(holdings);
    var weights := Scale(held, total);
    AllocationIsShare(needed, weights);
    AllocationsSum(needed, weights);
    var sales := Shares(needed, weights);
    forall i | 0 <= i < |sales|
      ensures sales[i].value >= 0.0
      ensures exists h :: h in holdings && h.symbol == sales[i].symbol && sales[i].value <= h.value
    {
      SalePerSymbol(needed, total, held[i]);
      assert sales[i] == Share(needed, Part(held[i], total));
      assert held[i] in holdings;
    }
  }

  lemma TargetWithinNav(nav: real, weight: real)
    requires nav > 0.0 && 0.0 <= weight <= 1.0
    ensures 0.0 <= TargetOf(nav, weight) <= nav
  {
    assert nav * (1.0 - weight) >= 0.0;
  }

  ghost predicate UsableInputs(weight: real, sp2: seq<Holding>, recovery: real, reserve: real) {
    && 0.0 <= weight <= 1.0 && Clean(sp2).Ok? && recovery >= 0.0 && reserve >= 0.0
    && Total(sp2) + recovery + reserve > 0.0
  }

  lemma AllocatesAll(amount: real, raw: seq<Holding>)
    requires amount > EPS && ReturnWeights(raw).Ok?
    ensures Allocate(amount, ReturnWeights(raw).value).Ok?
    ensures Total(Allocate(amount, ReturnWeights(raw).value).value) == amount
    ensures NotNegative(Allocate(amount, ReturnWeights(raw).value).value)
  {
    hide Share, Part, Clean;
    var cleaned := Clean(raw).value;
    CleanKeeps(raw);
    var weights := Scale(cleaned, Total(cleaned));
    ScaleTotal(cleaned, Total(cleaned));
    SelfDivided(Total(cleaned));
    AllocationIsShare(amount, weights);
    AllocationsSum(amount, weights);
    var buys := Shares(amount, weights);
    forall i | 0 <= i < |buys| ensures buys[i].value >= 0.0 {
      ShareNotNegative(amount, cleaned[i], Total(cleaned));
      assert buys[i] == Share(amount, Part(cleaned[i], Total(cleaned)));
    }
  }

  lemma ShareNotNegative(amount: real, h: Holding, total: real)
    requires amount >= 0.0 && h.value >= 0.0 && total > 0.0
    ensures Share(amount, Part(h, total)).value >= 0.0
  {
    assert h.value / total >= 0.0;
  }

  // With the target within the NAV, only the return weights of a decrease can fail.
  lemma PlanFails(nav: real, target: real, holdings: seq<Holding>, recovery: real, reserve: real, returnWeights: seq<Holding>)
    requires NotNegative(holdings) && recovery >= 0.0 && reserve >= 0.0
    requires nav == Total(holdings) + recovery + reserve && 0.0 <= target <= nav
    ensures var r := PlanFor(nav, target, holdings, recovery, reserve, returnWeights);
            && (r.Err? <==> target - recovery < -EPS && ReturnWeights(returnWeights).Err?)
            && (r.Err? ==> r.error == ReturnWeights(returnWeights).error)
  {
    hide CurrentWeights, Allocate, ReturnWeights;
    TotalNotNegative(holdings);
    var delta := target - recovery;
    var used := if reserve <= delta then reserve else delta;
    if delta > EPS && delta - used > EPS {
      SalesWithinHoldings(holdings, delta - used);
    }
    if delta < -EPS && ReturnWeights(returnWeights).Ok? {
      AllocatesAll(-delta, returnWeights);
    }
  }

  // The insufficient-SP2 and no-positive-SP2 errors, and those of the allocation, cannot
  // happen: with usable inputs only the return weights of a decrease can fail.
  lemma OnlyReturnWeightsFail(weight: real, sp2: seq<Holding>, recovery: real, reserve: real, returnWeights: seq<Holding>)
    requires UsableInputs(weight, sp2, recovery, reserve)
    ensures var r := Construct(weight, sp2, recovery, reserve, returnWeights);
            var delta := TargetOf(Total(sp2) + recovery + reserve, weight) - recovery;
            && (r.Err? <==> delta < -EPS && ReturnWeights(returnWeights).Err?)
            && (r.Err? ==> r.error == ReturnWeights(returnWeights).error)
  {
    hide PlanFor, ReturnWeights, Clean, TargetOf;
    var holdings := Clean(sp2).value;
    CleanKeeps(sp2);
    var nav := Total(holdings) + recovery + reserve;
    TargetWithinNav(nav, weight);
    PlanFails(nav, TargetOf(nav, weight), holdings, recovery, reserve, returnWeights);
  }

  /* ---- Conservation ---- */

  // What a plan leaves: the sleeve at its target, the reserve not overdrawn, and the parts
  // adding up to the NAV, except for a need below the cut-off that the reserve leaves open.
  ghost predicate Conserved(p: Plan, sp2: real, recovery: real, reserve: real) {
    var sp2After := sp2 - Total(p.sp2Sales) + Total(p.sp2Buys);
    var recoveryAfter := recovery + p.recoveryBuy - p.recoverySell;
    var after := sp2After + recoveryAfter + p.reserveAfter;
    && (if p.direction.NoChange? then recoveryAfter == recovery && -EPS <= p.target - recovery <= EPS
        else recoveryAfter == p.target)
    && 0.0 <= p.reserveAfter <= reserve
    && after - p.nav == Unsold(p.target, recovery, reserve)
  }

  // What an increase needs beyond the reserve, when that is too little to sell anything for.
  function Unsold(target: real, recovery: real, reserve: real): real {
    var need := target - recovery - reserve;
    if target - recovery > EPS && 0.0 < need <= EPS then need else 0.0
  }

  ghost predicate SoldFrom(sales: seq<Holding>, holdings: seq<Holding>) {
    forall i :: 0 <= i < |sales| ==>
      sales[i].value >= 0.0 && exists h :: h in holdings && h.symbol == sales[i].symbol && sales[i].value <= h.value
  }

  lemma PlanConserves(nav: real, target: real, holdings: seq<Holding>, recovery: real, reserve: real, returnWeights: seq<Holding>)
    requires NotNegative(holdings) && recovery >= 0.0 && reserve >= 0.0
    requires nav == Total(holdings) + recovery + reserve && 0.0 <= target <= nav
    requires PlanFor(nav, target, holdings, recovery, reserve, returnWeights).Ok?
    ensures var p := PlanFor(nav, target, holdings, recovery, reserve, returnWeights).value;
            && p.nav == nav && p.target == target
            && Conserved(p, Total(holdings), recovery, reserve)
            && NotNegative(p.sp2Buys) && SoldFrom(p.sp2Sales, holdings)
  {
    hide CurrentWeights, Allocate, ReturnWeights;
    var delta := target - recovery;
    var used := if reserve <= delta then reserve else delta;
    assert Total([]) == 0.0;
    if delta > EPS && delta - used > EPS {
      SalesWithinHoldings(holdings, delta - used);
    }
    if delta < -EPS {
      AllocatesAll(-delta, returnWeights);
    }
  }

  // No symbol is sold beyond its holding, the sleeve reaches its target, and NAV is conserved.
  lemma Conserves(weight: real, sp2: seq<Holding>, recovery: real, reserve: real, returnWeights: seq<Holding>)
    requires UsableInputs(weight, sp2, recovery, reserve)
    requires Construct(weight, sp2, recovery, reserve, returnWeights).Ok?
    ensures var p := Construct(weight, sp2, recovery, reserve, returnWeights).value;
            && p.nav == Total(sp2) + recovery + reserve && p.target == TargetOf(p.nav, weight)
            && Conserved(p, Total(sp2), recovery, reserve)
            && NotNegative(p.sp2Buys) && SoldFrom(p.sp2Sales, sp2)
  {
    hide PlanFor, Clean, Conserved, TargetOf;
    var holdings := Clean(sp2).value;
    CleanKeeps(sp2);
    var nav := Total(holdings) + recovery + reserve;
    TargetWithinNav(nav, weight);
    PlanConserves(nav, TargetOf(nav, weight), holdings, recovery, reserve, returnWeights);
  }

  /* ---- The plan, told by the inputs ---- */

  ghost predicate NoDuplicates(rows: seq<Holding>) {
    forall i, j :: 0 <= i < j < |rows| ==> rows[i].symbol != rows[j].symbol
  }

  // One row for each of these holdings, with its part of the amount, by rising symbol.
  ghost predicate SharedOut(rows: seq<Holding>, amount: real, holdings: seq<Holding>, total: real) {
    && (forall i, j :: 0 <= i < j < |rows| ==> rows[i].symbol < rows[j].symbol)
    && (forall i :: 0 <= i < |rows| ==> IsPart(rows[i], amount, holdings, total))
    && (forall h :: h in holdings ==> exists i :: 0 <= i < |rows| && rows[i].symbol == h.symbol)
  }

  ghost predicate IsPart(row: Holding, amount: real, holdings: seq<Holding>, total: real) {
    exists h :: h in holdings && h.symbol == row.symbol && row.value * total == amount * h.value
  }

  lemma BySymbolIsTotal()
    ensures TotalOrder(BySymbol)
  {
  }

  lemma CleanIs(rows: seq<Holding>)
    ensures Clean(rows).Ok? <==> NoDuplicates(rows) && NotNegative(rows)
    ensures Clean(rows).Ok? ==>
              var cleaned := Clean(rows).value;
              && (forall x :: x in cleaned <==> x in rows) && Total(cleaned) == Total(rows) && NotNegative(cleaned)
              && forall i, j :: 0 <= i < j < |cleaned| ==> cleaned[i].symbol < cleaned[j].symbol
  {
    if Clean(rows).Ok? {
      CleanKeeps(rows);
      var cleaned := Clean(rows).value;
      BySymbolIsTotal();
      SortSorts(BySymbol, rows);
      SortMultiset(BySymbol, rows);
      forall i, j | 0 <= i < j < |cleaned| ensures cleaned[i].symbol < cleaned[j].symbol {
        if cleaned[i].symbol == cleaned[j].symbol {
          Twice(rows, cleaned, i, j);
        }
      }
    }
  }

  // In a list without duplicates no symbol stands twice, however it is reordered.
  lemma Twice(rows: seq<Holding>, cleaned: seq<Holding>, i: nat, j: nat)
    requires NoDuplicates(rows) && multiset(cleaned) == multiset(rows) && i < j < |cleaned|
    ensures cleaned[i].symbol != cleaned[j].symbol
  {
    var a, b := cleaned[i], cleaned[j];
    assert a in multiset(rows) && b in multiset(rows);
    var m :| 0 <= m < |rows| && rows[m] == a;
    var n :| 0 <= n < |rows| && rows[n] == b;
    if a == b {
      assert cleaned == cleaned[..i] + [a] + cleaned[i + 1..j] + [b] + cleaned[j + 1..];
      assert multiset(cleaned)[a] >= 2;
      Once(rows, m);
    }
  }

  lemma Once(rows: seq<Holding>, m: nat)
    requires NoDuplicates(rows) && m < |rows|
    ensures multiset(rows)[rows[m]] == 1
  {
    assert rows == rows[..m] + [rows[m]] + rows[m + 1..];
    assert rows[m] !in rows[..m] && rows[m] !in rows[m + 1..];
  }

  lemma {:induction false} HeldSorted(rows: seq<Holding>)
    requires forall i, j :: 0 <= i < j < |rows| ==> rows[i].symbol < rows[j].symbol
    ensures var held := Held(rows);
            && (forall i, j :: 0 <= i < j < |held| ==> held[i].symbol < held[j].symbol)
            && (forall x :: x in held <==> x in rows && x.value > 0.0)
  {
    if rows != [] {
      HeldSorted(DropLast(rows));
      var front := Held(DropLast(rows));
      assert rows == DropLast(rows) + [Last(rows)];
      assert forall i :: 0 <= i < |front| ==> front[i] in front;
    }
  }

  lemma ShareOf(amount: real, h: Holding, total: real)
    requires total > 0.0
    ensures Share(amount, Part(h, total)).symbol == h.symbol && Share(amount, Part(h, total)).value * total == amount * h.value
  {
    var w := h.value / total;
    assert w * total == h.value;
    assert amount * w * total == amount * (w * total);
  }

  // Shares of rows by rising symbol.
  lemma SharesOut(amount: real, rows: seq<Holding>, total: real)
    requires total > 0.0 && forall i, j :: 0 <= i < j < |rows| ==> rows[i].symbol < rows[j].symbol
    ensures SharedOut(Shares(amount, Scale(rows, total)), amount, rows, total)
  {
    hide Share, Part;
    var shares := Shares(amount, Scale(rows, total));
    forall i | 0 <= i < |rows|
      ensures shares[i].symbol == rows[i].symbol && shares[i].value * total == amount * rows[i].value
    {
      ShareOf(amount, rows[i], total);
    }
    forall i | 0 <= i < |shares| ensures IsPart(shares[i], amount, rows, total) {
      assert rows[i] in rows;
    }
  }

  // The positive ones of these holdings.
  ghost predicate PositiveOf(held: seq<Holding>, rows: seq<Holding>) {
    forall x :: x in held <==> x in rows && x.value > 0.0
  }

  lemma SalesOut(rows: seq<Holding>, needed: real)
    requires Clean(rows).Ok? && EPS < needed <= Total(rows)
    ensures var holdings := Clean(rows).value;
            && CurrentWeights(holdings).Ok? && Allocate(needed, CurrentWeights(holdings).value).Ok?
            && PositiveOf(Held(holdings), rows)
            && SharedOut(Allocate(needed, CurrentWeights(holdings).value).value, needed, Held(holdings), Total(rows))
  {
    hide Share, Part, CurrentWeights, Allocate, SharedOut;
    CleanIs(rows);
    var holdings := Clean(rows).value;
    HeldSorted(holdings);
    CurrentWeightsAre(holdings);
    AllocationIsShare(needed, Scale(Held(holdings), Total(holdings)));
    SharesOut(needed, Held(holdings), Total(holdings));
  }

  // The return weights are usable if no symbol stands twice, none is negative, and they sum to one
  // within the slack.
  ghost predicate UsableWeights(raw: seq<Holding>) {
    NoDuplicates(raw) && NotNegative(raw) && -WEIGHT_SLACK <= Total(raw) - 1.0 <= WEIGHT_SLACK
  }

  lemma BuysOut(raw: seq<Holding>, amount: real)
    requires amount > EPS
    ensures ReturnWeights(raw).Ok? <==> UsableWeights(raw)
    ensures ReturnWeights(raw).Ok? ==>
              && Allocate(amount, ReturnWeights(raw).value).Ok?
              && SharedOut(Allocate(amount, ReturnWeights(raw).value).value, amount, raw, Total(raw))
  {
    hide Share, Part, Allocate, Clean;
    CleanIs(raw);
    assert Total([]) == 0.0;
    if ReturnWeights(raw).Ok? {
      var cleaned := Clean(raw).value;
      ScaleTotal(cleaned, Total(cleaned));
      SelfDivided(Total(cleaned));
      AllocationIsShare(amount, Scale(cleaned, Total(cleaned)));
      SharesOut(amount, cleaned, Total(cleaned));
      SameParts(Allocate(amount, ReturnWeights(raw).value).value, amount, cleaned, raw, Total(raw));
    }
  }

  lemma SameParts(rows: seq<Holding>, amount: real, cleaned: seq<Holding>, raw: seq<Holding>, total: real)
    requires SharedOut(rows, amount, cleaned, total) && forall x :: x in cleaned <==> x in raw
    ensures SharedOut(rows, amount, raw, total)
  {
    forall i | 0 <= i < |rows| ensures IsPart(rows[i], amount, raw, total) {
      assert IsPart(rows[i], amount, cleaned, total);
      var h :| h in cleaned && h.symbol == rows[i].symbol && rows[i].value * total == amount * h.value;
      assert h in raw;
    }
  }

  // An increase takes the reserve first, and sells what is still needed in proportion to the holdings.
  ghost predicate Increases(p: Plan, delta: real, sp2: seq<Holding>, reserve: real) {
    var need := delta - p.reserveUsed;
    && p.direction.IncreaseRecovery?
    && p.reserveUsed == (if reserve <= delta then reserve else delta) && p.reserveAfter == reserve - p.reserveUsed
    && p.recoveryBuy == delta && p.recoverySell == 0.0 && p.sp2Buys == [] && p.sp2BuyTotal == 0.0 && p.sp2SaleTotal == need
    && if need <= EPS then p.sp2Sales == []
       else exists held :: PositiveOf(held, sp2) && SharedOut(p.sp2Sales, need, held, Total(sp2))
  }

  // A decrease leaves the reserve alone, and buys in proportion to the return weights.
  ghost predicate Decreases(p: Plan, excess: real, reserve: real, returnWeights: seq<Holding>) {
    && p.direction.DecreaseRecovery?
    && p.reserveUsed == 0.0 && p.reserveAfter == reserve && p.sp2Sales == [] && p.sp2SaleTotal == 0.0
    && p.recoveryBuy == 0.0 && p.recoverySell == excess && p.sp2BuyTotal == excess
    && SharedOut(p.sp2Buys, excess, returnWeights, Total(returnWeights))
  }

  ghost predicate Stands(p: Plan, reserve: real) {
    && p.direction.NoChange? && p.reserveUsed == 0.0 && p.reserveAfter == reserve
    && p.sp2Sales == [] && p.sp2Buys == [] && p.sp2SaleTotal == 0.0 && p.sp2BuyTotal == 0.0
    && p.recoveryBuy == 0.0 && p.recoverySell == 0.0
  }

  ghost predicate PlanSays(p: Plan, delta: real, sp2: seq<Holding>, reserve: real, returnWeights: seq<Holding>) {
    if delta > EPS then Increases(p, delta, sp2, reserve)
    else if delta < -EPS then Decreases(p, -delta, reserve, returnWeights)
    else Stands(p, reserve)
  }

  lemma PlanForSays(nav: real, target: real, sp2: seq<Holding>, recovery: real, reserve: real, returnWeights: seq<Holding>)
    requires Clean(sp2).Ok? && recovery >= 0.0 && reserve >= 0.0
    requires nav == Total(sp2) + recovery + reserve && 0.0 <= target <= nav
    ensures var r := PlanFor(nav, target, Clean(sp2).value, recovery, reserve, returnWeights);
            && (r.Ok? <==> (target - recovery < -EPS ==> UsableWeights(returnWeights)))
            && (r.Ok? ==> r.value.nav == nav && r.value.target == target && PlanSays(r.value, target - recovery, sp2, reserve, returnWeights))
  {
    hide Clean, ReturnWeights, CurrentWeights, Allocate, SharedOut, UsableWeights, PositiveOf, Total;
    CleanIs(sp2);
    TotalNotNegative(sp2);
    var delta := target - recovery;
    var used := if reserve <= delta then reserve else delta;
    if delta > EPS && delta - used > EPS {
      SalesOut(sp2, delta - used);
    }
    if delta < -EPS {
      BuysOut(returnWeights, -delta);
    }
  }

  // The whole plan, told by the inputs: when there is one, and what it does.
  lemma PlanIs(weight: real, sp2: seq<Holding>, recovery: real, reserve: real, returnWeights: seq<Holding>)
    ensures var nav := Total(sp2) + recovery + reserve; var r := Construct(weight, sp2, recovery, reserve, returnWeights);
            && (r.Ok? <==>
                  && 0.0 <= weight <= 1.0 && NoDuplicates(sp2) && NotNegative(sp2) && recovery >= 0.0 && reserve >= 0.0 && nav > 0.0
                  && (nav * weight - recovery < -EPS ==> UsableWeights(returnWeights)))
            && (r.Ok? ==>
                  && r.value.nav == nav && r.value.target == nav * weight
                  && PlanSays(r.value, nav * weight - recovery, sp2, reserve, returnWeights))
  {
    hide Clean, PlanFor, PlanSays, UsableWeights, NoDuplicates, NotNegative, Total, TargetOf;
    CleanIs(sp2);
    var nav := Total(sp2) + recovery + reserve;
    TargetIs(nav, weight);
    if 0.0 <= weight <= 1.0 && Clean(sp2).Ok? && recovery >= 0.0 && reserve >= 0.0 && nav > 0.0 {
      TargetWithinNav(nav, weight);
      PlanForSays(nav, TargetOf(nav, weight), sp2, recovery, reserve, returnWeights);
    }
  }

  lemma TargetIs(nav: real, weight: real)
    ensures TargetOf(nav, weight) == nav * weight
  {
  }
}
