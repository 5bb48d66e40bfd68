// Cash over whole runs: while a workflow is buying, what its orders may still cost is covered,
// so if no order costs more than its estimate, strategy cash never falls below minus one cent.
module CashBound {
  import opened Common
  import opened Capital
  import opened ExecutionTables
  import opened Executor
  import opened ExecutionSteps
  import opened ExecutionInvariant
  import opened ExecutionKeeps
  import opened ExecutionEffects
  import BuySequence
  import opened PostOrder
  import opened CycleSteps
  import opened CycleRuns

  // What the fills of one buy order have cost, in cents.
  function DebitOf(ledger: seq<LedgerRow>, orderId: nat): int {
    if ledger == [] then 0
    else
      var e := Last(ledger).event;
      DebitOf(DropLast(ledger), orderId) + if e.side.Buy? && e.key.orderId == orderId then -e.delta else 0
  }

  function LegDebit(leg: Leg, ledger: seq<LedgerRow>): int {
    if leg.spec.side.Buy? && leg.orderId.Some? then DebitOf(ledger, leg.orderId.value) else 0
  }

  function LegEstimate(leg: Leg): real {
    if leg.spec.side.Buy? && leg.spec.estimate.Some? then leg.spec.estimate.value else 0.0
  }

  function Debits(legs: seq<Leg>, ledger: seq<LedgerRow>): int {
    if legs == [] then 0 else Debits(DropLast(legs), ledger) + LegDebit(Last(legs), ledger)
  }

  function EstimateSum(legs: seq<Leg>): real {
    if legs == [] then 0.0 else EstimateSum(DropLast(legs)) + LegEstimate(Last(legs))
  }

  ghost predicate Buying(db: Db, id: nat) {
    id in db.workflows && !db.workflows[id].status.Complete? && db.workflows[id].phase.BuyPhase?
  }

  ghost predicate Covered(db: Db, id: nat)
    requires id in db.workflows
  {
    var legs := db.workflows[id].legs;
    db.machine.account.cash as real + Debits(legs, db.ledger) as real + 1.0 >= EstimateSum(legs)
  }

  ghost predicate CashInv(db: Db) {
    && (forall k :: 0 <= k < |db.ledger| && db.ledger[k].event.side.Buy? ==> db.ledger[k].event.delta <= 0)
    && (forall id :: Buying(db, id) ==> Covered(db, id))
  }

  lemma {:induction false} DebitNotNegative(ledger: seq<LedgerRow>, orderId: nat)
    requires forall k :: 0 <= k < |ledger| && ledger[k].event.side.Buy? ==> ledger[k].event.delta <= 0
    ensures DebitOf(ledger, orderId) >= 0
  {
    if ledger != [] {
      DebitNotNegative(DropLast(ledger), orderId);
    }
  }

  // Legs that evolve keep their estimates and lose no debit.
  lemma {:induction false} EvolvedSums(legs: seq<Leg>, next: seq<Leg>, ledger: seq<LedgerRow>)
    requires |next| == |legs| && forall i :: 0 <= i < |legs| ==> LegEvolves(legs[i], next[i])
    requires forall k :: 0 <= k < |ledger| && ledger[k].event.side.Buy? ==> ledger[k].event.delta <= 0
    ensures EstimateSum(next) == EstimateSum(legs) && Debits(next, ledger) >= Debits(legs, ledger)
  {
    if legs != [] {
      EvolvedSums(DropLast(legs), DropLast(next), ledger);
      assert LegEvolves(Last(legs), Last(next));
      if Last(next).orderId.Some? {
        DebitNotNegative(ledger, Last(next).orderId.value);
      }
    }
  }

  // A fill is added to the debit of every leg with its order id.
  lemma {:induction false} FillSums(legs: seq<Leg>, ledger: seq<LedgerRow>, row: LedgerRow)
    requires row.event.side.Buy? ==> row.event.delta <= 0
    ensures Debits(legs, ledger + [row]) >= Debits(legs, ledger)
    ensures forall i :: 0 <= i < |legs| && legs[i].spec.side.Buy? && row.event.side.Buy? && legs[i].orderId == Some(row.event.key.orderId)
              ==> Debits(legs, ledger + [row]) >= Debits(legs, ledger) - row.event.delta
  {
    assert DropLast(ledger + [row]) == ledger;
    if legs != [] {
      FillSums(DropLast(legs), ledger, row);
      assert forall i :: 0 <= i < |legs| - 1 ==> legs[i] == DropLast(legs)[i];
    }
  }

  lemma {:induction false} SellsHaveNone(legs: seq<Leg>, ledger: seq<LedgerRow>)
    requires forall i :: 0 <= i < |legs| ==> legs[i].spec.side.Sell?
    ensures Debits(legs, ledger) == 0 && EstimateSum(legs) == 0.0
  {
    if legs != [] {
      SellsHaveNone(DropLast(legs), ledger);
    }
  }

  lemma {:induction false} InstalledSums(legs: seq<Leg>, specs: seq<LegSpec>, ledger: seq<LedgerRow>)
    requires forall i :: 0 <= i < |legs| ==> legs[i].spec.side.Sell?
    requires ValidLegs(specs, Buy)
    ensures Debits(legs + PlannedLegs(specs), ledger) == 0
    ensures EstimateSum(legs + PlannedLegs(specs)) == Estimates(specs)
  {
    if specs == [] {
      assert legs + PlannedLegs(specs) == legs;
      SellsHaveNone(legs, ledger);
    } else {
      InstalledSums(legs, DropLast(specs), ledger);
      assert DropLast(legs + PlannedLegs(specs)) == legs + PlannedLegs(DropLast(specs));
      assert Last(legs + PlannedLegs(specs)) == Leg(Last(specs), Planned, None);
    }
  }

  /* ---- Steps ---- */

  // Unless it is just being installed, a buying workflow was buying before, leg for leg.
  ghost predicate WasBuying(w: World, next: World, id: nat) {
    && Buying(w.db, id) && id in next.db.workflows && |next.db.workflows[id].legs| == |w.db.workflows[id].legs|
  }

  lemma BuyingBefore(w: World, next: World, k: Kind, id: nat)
    requires Inv(w.db) && Takes(w, next, k) && Buying(next.db, id)
    ensures WasBuying(w, next, id) || (k.Installing? && k.id == id)
  {
    hide Inv, Takes, Rewriting;
    if Rewriting(w.db, k).Some? {
      RewriteEffect(w, next, k);
      if Rewriting(w.db, k).value.id == id && !k.Installing? {
        RewrittenBuying(w, next, k);
      } else if k.Installing? {
        InstallsItself(w.db, k);
      }
    } else if k.Intending? || k.Accepting? {
      LegEffect(w, next, k);
    } else {
      OtherEffect(w, next, k);
    }
  }

  lemma InstallsItself(db: Db, k: Kind)
    requires k.Installing? && Rewriting(db, k).Some?
    ensures Rewriting(db, k).value.id == k.id
  {
  }

  lemma RewrittenBuying(w: World, next: World, k: Kind)
    requires Takes(w, next, k) && Rewriting(w.db, k).Some? && !k.Installing?
    ensures var r := Rewriting(w.db, k).value;
            !r.record.status.Complete? && r.record.phase.BuyPhase? ==>
              Buying(w.db, r.id) && |r.record.legs| == |w.db.workflows[r.id].legs|
  {
    hide MoveAndCommit, BuyProgress, Covers, SellVerdict, BuyVerdict, AllReconcilable, Indexes;
    RewriteIs(w, next, k);
    match k
    case MarkingSell(id, statuses) => BuySequence.SellNeverBuys(statuses);
    case Persisting(id, statuses, status, suffix, to) => BuySequence.ProgressKeys(w.db, id, statuses, status, suffix, to);
    case _ =>
  }

  // Only fills move cash.
  lemma CashMoves(w: World, next: World, k: Kind)
    requires Takes(w, next, k) && !k.Filling?
    ensures next.db.ledger == w.db.ledger && next.db.machine.account.cash == w.db.machine.account.cash
  {
    hide Takes, Rewriting;
    if Rewriting(w.db, k).Some? {
      RewriteEffect(w, next, k);
    } else if k.Intending? || k.Accepting? {
      LegEffect(w, next, k);
    } else {
      OtherEffect(w, next, k);
    }
  }

  lemma FillingCovers(w: World, next: World, id: nat, i: nat, event: FillEvent)
    requires Inv(w.db) && CashInv(w.db) && Takes(w, next, Filling(id, i, event))
    ensures CashInv(next.db)
  {
    hide AwaitsControl, KeysOk, WorkflowsOk, FindFill, Debits, EstimateSum;
    forall other | Buying(next.db, other) ensures Covered(next.db, other) {
      assert Buying(w.db, other) && Unfinished(w.db, other) && Unfinished(w.db, id);
      assert Covered(w.db, other);
      if next.db.ledger != w.db.ledger {
        FillSums(w.db.workflows[id].legs, w.db.ledger, Last(next.db.ledger));
      }
    }
  }

  lemma InstallingCovers(w: World, next: World, id: nat, specs: seq<LegSpec>)
    requires Inv(w.db) && Takes(w, next, Installing(id, specs)) && Buying(next.db, id)
    ensures Covered(next.db, id)
  {
    hide AwaitsControl, KeysOk, MoveAndCommit, Debits, EstimateSum, Estimates;
    var wf := w.db.workflows[id];
    assert Fits(wf, w.db.machine.exec, w.db.machine.account);
    if specs == [] {
      MoveKeepsRecords(w.db, id, wf.(status := Complete), NoBuyComplete, Idle);
    } else {
      MoveKeepsRecords(w.db, id, wf.(phase := BuyPhase, legs := wf.legs + PlannedLegs(specs)), BuyInstalled, BuyPending);
      InstalledSums(wf.legs, specs, w.db.ledger);
    }
  }

  lemma StepCovers(w: World, next: World, k: Kind)
    requires Inv(w.db) && CashInv(w.db) && Takes(w, next, k)
    ensures CashInv(next.db)
  {
    hide Inv, Takes, Covered;
    if k.Filling? {
      FillingCovers(w, next, k.id, k.i, k.event);
    } else {
      CashMoves(w, next, k);
      StepEvolves(w, next, k);
      forall id | Buying(next.db, id) ensures Covered(next.db, id) {
        BuyingBefore(w, next, k, id);
        if k.Installing? && k.id == id {
          InstallingCovers(w, next, id, k.specs);
        } else {
          StillCovered(w, next, id);
        }
      }
    }
  }

  lemma StillCovered(w: World, next: World, id: nat)
    requires CashInv(w.db) && WasBuying(w, next, id) && Evolves(w, next)
    requires next.db.ledger == w.db.ledger && next.db.machine.account.cash == w.db.machine.account.cash
    ensures Covered(next.db, id)
  {
    hide Debits, EstimateSum;
    assert WorkflowEvolves(w.db.workflows[id], next.db.workflows[id]);
    EvolvedSums(w.db.workflows[id].legs, next.db.workflows[id].legs, w.db.ledger);
  }

  lemma {:induction false} StepsCover(w: World, worlds: seq<World>)
    requires Inv(w.db) && CashInv(w.db) && Steps(w, worlds)
    ensures CashInv(At(w, worlds).db)
    decreases |worlds|
  {
    hide Inv, Takes, CashInv;
    if worlds != [] {
      var k :| Takes(w, worlds[0], k);
      StepKeepsInv(w, worlds[0], k);
      StepCovers(w, worlds[0], k);
      StepsCover(worlds[0], worlds[1..]);
    }
  }

  lemma {:induction false} EveryRunCovers(start: World, steps: seq<CycleStep>)
    requires FreshStart(start)
    ensures CashInv(RunCycles(start, steps).db)
  {
    hide Cycle, Inv, PostsOk, Decided, CashInv, Steps;
    if steps == [] {
      StartCovers(start);
    } else {
      var front := DropLast(steps);
      EveryRunCovers(start, front);
      EveryRun(start, front);
      var w := RunCycles(start, front);
      CycleKeeps(w, Last(steps).oracle, Last(steps).stop);
      var worlds, stop := Cycle(w, Last(steps).oracle).worlds, Last(steps).stop;
      StepsCover(w, if stop <= |worlds| then worlds[..stop] else worlds);
    }
  }

  lemma StartCovers(start: World)
    requires FreshStart(start)
    ensures CashInv(start.db)
  {
  }

  // No buy order of the workflow has cost more than its estimate.
  ghost predicate WithinEstimates(db: Db, id: nat)
    requires id in db.workflows
  {
    var legs := db.workflows[id].legs;
    forall i :: 0 <= i < |legs| && legs[i].spec.side.Buy? && legs[i].orderId.Some? && legs[i].spec.estimate.Some? ==>
      DebitOf(db.ledger, legs[i].orderId.value) as real <= legs[i].spec.estimate.value
  }

  lemma {:induction false} WithinSums(legs: seq<Leg>, ledger: seq<LedgerRow>)
    requires forall i :: 0 <= i < |legs| ==> LegOk(legs[i])
    requires forall i :: 0 <= i < |legs| && legs[i].spec.side.Buy? && legs[i].orderId.Some? && legs[i].spec.estimate.Some? ==>
               DebitOf(ledger, legs[i].orderId.value) as real <= legs[i].spec.estimate.value
    ensures Debits(legs, ledger) as real <= EstimateSum(legs)
  {
    if legs != [] {
      WithinSums(DropLast(legs), ledger);
      assert LegOk(Last(legs)) && Last(legs) == legs[|legs| - 1];
    }
  }

  // However many buy legs, and wherever the run was stopped.
  lemma CashNeverBelowOneCent(start: World, steps: seq<CycleStep>, id: nat)
    requires FreshStart(start)
    requires var db := RunCycles(start, steps).db; Buying(db, id) && WithinEstimates(db, id)
    ensures RunCycles(start, steps).db.machine.account.cash >= -1
  {
    hide RunCycles, FreshStart, Decided, Debits, EstimateSum, Fits, AwaitsControl, KeysOk;
    EveryRun(start, steps);
    EveryRunCovers(start, steps);
    var db := RunCycles(start, steps).db;
    assert Covered(db, id);
    WithinSums(db.workflows[id].legs, db.ledger);
  }
}
