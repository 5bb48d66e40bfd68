// What a step writes: the record of one workflow together with a move of the machine, one leg,
// or no workflow record at all.
module ExecutionEffects {
  import opened Common
  import opened Capital
  import opened ExecutionTables
  import opened Executor
  import opened ExecutionSteps
  import opened ExecutionKeeps

  // A transaction that rewrites a record and moves the machine.
  datatype Rewrite = Rewrite(id: nat, record: Workflow, suffix: Suffix, to: ExecState)

  function Rewriting(db: Db, k: Kind): Option<Rewrite> {
    match k
    case Creating(plan, specs) =>
      if Id(plan) in db.workflows then None
      else Some(Rewrite(Id(plan), Workflow(plan, Active, NoPhase, PlannedLegs(specs)), Created, PlanCreated))
    case Starting(id) =>
      if id !in db.workflows || !db.workflows[id].phase.NoPhase? then None
      else if LegsOf(db.workflows[id].legs, Sell) != [] then
        Some(Rewrite(id, db.workflows[id].(phase := SellPhase), ExecutionTables.Start, SellPending))
      else Some(Rewrite(id, db.workflows[id].(phase := ReconcilePhase), ExecutionTables.Start, Reconciling))
    case Requiring(id) =>
      if id !in db.workflows || !AnyAmbiguous(db.workflows[id].legs) then None
      else Some(Rewrite(id, db.workflows[id].(status := ReconciliationRequired), AmbiguousIntent, ReconRequired))
    case MarkingSell(id, statuses) =>
      if id !in db.workflows then None
      else
        var w, v := db.workflows[id], SellVerdict(statuses);
        Some(Rewrite(id, Workflow(w.plan, v.status, v.phase, WithStatuses(w.legs, statuses)), SellReconcile(v.exec), v.exec))
    case Installing(id, specs) =>
      if id !in db.workflows then None
      else if specs == [] then Some(Rewrite(id, db.workflows[id].(status := Complete), NoBuyComplete, Idle))
      else
        Some(Rewrite(id, db.workflows[id].(phase := BuyPhase, legs := db.workflows[id].legs + PlannedLegs(specs)),
                     BuyInstalled, BuyPending))
    case Persisting(id, statuses, status, suffix, to) =>
      if id !in db.workflows then None
      else
        var w := db.workflows[id];
        Some(Rewrite(id, Workflow(w.plan, status, BuyPhase, WithStatuses(w.legs, statuses)), suffix, to))
    case MarkingBuy(id) =>
      if id !in db.workflows then None
      else
        var w := db.workflows[id];
        var statuses := AllFilled(w.legs);
        var v := BuyVerdict(statuses);
        Some(Rewrite(id, Workflow(w.plan, v.status, v.phase, WithStatuses(w.legs, statuses)), BuyReconcile(v.exec), v.exec))
    case _ => None
  }

  // The step is that transaction, on a new workflow or an ACTIVE one.
  lemma RewriteIs(w: World, next: World, k: Kind)
    requires Takes(w, next, k) && Rewriting(w.db, k).Some?
    ensures var r := Rewriting(w.db, k).value;
            && next.posts == w.posts
            && MoveAndCommit(Put(w.db, r.id, r.record), r.id, r.suffix, r.to) == Ok(next.db)
            && (if k.Creating? then r.id !in w.db.workflows else ActiveIn(w.db, r.id))
  {
    hide MoveAndCommit, Covers, SellVerdict, BuyVerdict, Indexes, AllReconcilable;
  }

  lemma MoveKeepsRecords(db: Db, id: nat, w: Workflow, suffix: Suffix, to: ExecState)
    requires MoveAndCommit(Put(db, id, w), id, suffix, to).Ok?
    ensures MoveAndCommit(Put(db, id, w), id, suffix, to).value.workflows == db.workflows[id := w]
    ensures MoveAndCommit(Put(db, id, w), id, suffix, to).value.ledger == db.ledger
    ensures MoveAndCommit(Put(db, id, w), id, suffix, to).value.machine.account.cash == db.machine.account.cash
  {
  }

  lemma RewriteEffect(w: World, next: World, k: Kind)
    requires Takes(w, next, k) && Rewriting(w.db, k).Some?
    ensures var r := Rewriting(w.db, k).value;
            && next.db.workflows == w.db.workflows[r.id := r.record]
            && next.posts == w.posts && next.db.ledger == w.db.ledger
            && next.db.machine.account.cash == w.db.machine.account.cash
            && (if k.Creating? then r.id !in w.db.workflows else ActiveIn(w.db, r.id))
  {
    hide MoveAndCommit, Takes, Rewriting;
    RewriteIs(w, next, k);
    var r := Rewriting(w.db, k).value;
    MoveKeepsRecords(w.db, r.id, r.record, r.suffix, r.to);
  }

  // The leg a step of the submission rewrites.
  function LegAfter(db: Db, k: Kind): Option<(nat, nat, Leg)> {
    match k
    case Intending(id, i) =>
      if id in db.workflows && i < |db.workflows[id].legs|
      then Some((id, i, db.workflows[id].legs[i].(status := IntentRecorded))) else None
    case Accepting(id, i, orderId) =>
      if id in db.workflows && i < |db.workflows[id].legs|
      then Some((id, i, db.workflows[id].legs[i].(status := BrokerAccepted, orderId := Some(orderId)))) else None
    case _ => None
  }

  lemma LegEffect(w: World, next: World, k: Kind)
    requires Takes(w, next, k) && (k.Intending? || k.Accepting?)
    ensures LegAfter(w.db, k).Some?
    ensures var (id, i, leg) := LegAfter(w.db, k).value;
            LegIn(w.db, id, i) && next == w.(db := PutLeg(w.db, id, i, leg))
  {
    hide CashOk;
  }

  // Every other step leaves the workflow records alone, and only a fill touches the cash.
  lemma OtherEffect(w: World, next: World, k: Kind)
    requires Takes(w, next, k) && Rewriting(w.db, k).None? && !k.Intending? && !k.Accepting?
    ensures next.db.workflows == w.db.workflows
    ensures !k.Filling? ==> next.db.ledger == w.db.ledger && next.db.machine.account.cash == w.db.machine.account.cash
    ensures !k.Posting? ==> next.posts == w.posts
  {
    hide MoveAndCommit, Covers, FindRow, ValidMachine, FindFill;
  }
}
