// The durable tables of the two-phase execution protocol, and what each transaction of
// src/sp1execution/execution/workflow_v04.py commits.  Event keys are the values that get
// formatted into strings; an estimate is a real number of cents.
module ExecutionTables {
  import opened Common
  import opened Capital

  datatype LegStatus =
    | Planned | IntentRecorded | BrokerAccepted | LegPending | LegPartial | LegFilled | LegFailed | LegUnknown

  datatype LegSpec = LegSpec(side: Side, ticker: nat, quantity: real, estimate: Option<real>)

  datatype Leg = Leg(spec: LegSpec, status: LegStatus, orderId: Option<nat>)

  datatype WorkflowStatus = Active | Complete | Failed | ReconciliationRequired

  datatype Phase = NoPhase | SellPhase | ReconcilePhase | BuyPhase

  // target_payload, as far as the protocol reads it.
  datatype Plan = Plan(decision: nat, rebalance: bool, details: nat)

  datatype Workflow = Workflow(plan: Plan, status: WorkflowStatus, phase: Phase, legs: seq<Leg>)

  datatype ExecState =
    | Idle | PlanCreated | SellPending | BuyPending | Reconciling | PartialFill | ReconRequired | ExecFailed

  datatype Suffix =
    | Created | Start | AmbiguousIntent
    | SellReconcile(to: ExecState) | NoBuyComplete | BuyInstalled | BuyReconcile(to: ExecState)
    | BuyUnknown | BuyFailed | BuyPartial | BuyStillPending | BuyLegFilled(leg: nat) | BuyCashBreach

  datatype ControlPart = StrategyFinal | MembershipFinal | OtherControl(event: nat)

  datatype Key = ExecKey(workflow: nat, suffix: Suffix) | ControlKey(decision: nat, part: ControlPart)

  datatype Row =
    | ExecRow(key: Key, before: int, after: int, fromState: ExecState, toState: ExecState)
    | ControlRow(key: Key, before: int, after: int, content: nat)

  datatype Machine = Machine(account: Account, exec: ExecState)

  datatype Db = Db(machine: Machine, workflows: map<nat, Workflow>, journal: seq<Row>, ledger: seq<LedgerRow>)

  datatype ExecError =
    | InvalidLeg | ConflictingWorkflow | ConflictingTransition | NotIdle | OtherActive
    | UnknownWorkflow | NotActive | WrongExecState | WrongPhase | UnknownLeg | IntentNeedsPlanned
    | ConflictingOrderId | AcceptanceNeedsIntent | UnsupportedStatus | NotReconcilable | NotCovered
    | SellNotFilled | BuysAlreadyInstalled | CashDebt | PlannedExceedsCash | InvalidMachine
    | CapitalFailed(error: CapitalError) | ControlRefused
    // raised by the executor and the cycle
    | PhaseNotReady | SubmissionAmbiguous | BrokerRaised | PositionsDiffer | SideMismatch | CashBoundary
    | NothingSubmitted | ReplanFailed | GuardRefused | SeveralPending | Invariant

  function Id(plan: Plan): nat {
    plan.decision
  }

  /* ---- machine state and the journal ---- */

  function FindRow(rows: seq<Row>, key: Key): (r: Option<Row>)
    ensures r.Some? ==> r.value in rows && r.value.key == key
    ensures r.None? ==> forall i :: 0 <= i < |rows| ==> rows[i].key != key
  {
    if rows == [] then None
    else if Last(rows).key == key then Some(Last(rows))
    else FindRow(DropLast(rows), key)
  }

  // No key is journaled twice.
  ghost predicate DistinctRows(journal: seq<Row>) {
    forall i, j :: 0 <= i < j < |journal| ==> journal[i].key != journal[j].key
  }

  // _set_execution_state and _set_m5b_execution_state, inside a transaction: a journaled key
  // is a no-op or a conflict, and so the machine need not move.
  function SetExec(db: Db, id: nat, suffix: Suffix, to: ExecState): Result<Db, ExecError> {
    match FindRow(db.journal, ExecKey(id, suffix))
    case Some(row) => if row.ControlRow? || row.toState != to then Err(ConflictingTransition) else Ok(db)
    case None =>
      if db.machine.exec == to then Ok(db)
      else
        var a := db.machine.account;
        Ok(db.(machine := Machine(a.(revision := a.revision + 1), to),
               journal := db.journal + [ExecRow(ExecKey(id, suffix), a.revision, a.revision + 1, db.machine.exec, to)]))
  }

  function ActiveIds(db: Db): set<nat> {
    set id | id in db.workflows && db.workflows[id].status.Active?
  }

  // validate_machine_state, as far as these tables go: cash in cents, so -0.011 is -1.1.
  predicate ValidMachine(db: Db) {
    var a := db.machine.account;
    && !(a.cash < -1 && 10 * (a.debt + a.cash) < -11)
    && !(db.machine.exec.Idle? && ActiveIds(db) != {})
  }

  function Put(db: Db, id: nat, w: Workflow): Db {
    db.(workflows := db.workflows[id := w])
  }

  // The last steps of a transaction: move the machine, validate, commit.
  function MoveAndCommit(db: Db, id: nat, suffix: Suffix, to: ExecState): Result<Db, ExecError> {
    match SetExec(db, id, suffix, to)
    case Err(e) => Err(e)
    case Ok(next) => if ValidMachine(next) then Ok(next) else Err(InvalidMachine)
  }

  /* ---- create, start ---- */

  predicate ValidLeg(spec: LegSpec, side: Side) {
    spec.side == side && spec.quantity > 0.0 && (spec.estimate.Some? ==> spec.estimate.value >= 0.0)
  }

  predicate ValidLegs(specs: seq<LegSpec>, side: Side) {
    forall i :: 0 <= i < |specs| ==> ValidLeg(specs[i], side)
  }

  function PlannedLegs(specs: seq<LegSpec>): seq<Leg> {
    seq(|specs|, i requires 0 <= i < |specs| => Leg(specs[i], Planned, None))
  }

  function LegsOf(legs: seq<Leg>, side: Side): seq<Leg> {
    if legs == [] then []
    else LegsOf(DropLast(legs), side) + if Last(legs).spec.side == side then [Last(legs)] else []
  }

  // A replay of the creation: acceptance rewrites a leg's payload, so an accepted leg differs.
  predicate SameCreation(w: Workflow, plan: Plan, specs: seq<LegSpec>) {
    var sells := LegsOf(w.legs, Sell);
    && w.plan == plan && |sells| == |specs|
    && forall i :: 0 <= i < |specs| ==> sells[i].spec == specs[i] && sells[i].orderId.None?
  }

  function CreateWorkflow(db: Db, plan: Plan, specs: seq<LegSpec>): Result<Db, ExecError> {
    var id := Id(plan);
    if !ValidLegs(specs, Sell) then Err(InvalidLeg)
    else if id in db.workflows then
      if SameCreation(db.workflows[id], plan, specs) then Ok(db) else Err(ConflictingWorkflow)
    else if !db.machine.exec.Idle? then Err(NotIdle)
    else if ActiveIds(db) != {} then Err(OtherActive)
    else MoveAndCommit(Put(db, id, Workflow(plan, Active, NoPhase, PlannedLegs(specs))), id, Created, PlanCreated)
  }

  function StartWorkflow(db: Db, id: nat): Result<Db, ExecError> {
    if id !in db.workflows then Err(UnknownWorkflow)
    else
      var w := db.workflows[id];
      if !w.status.Active? then Err(NotActive)
      else if !w.phase.NoPhase? then Ok(db)
      else if !db.machine.exec.PlanCreated? then Err(WrongExecState)
      else if LegsOf(w.legs, Sell) != [] then
        MoveAndCommit(Put(db, id, w.(phase := SellPhase)), id, Start, SellPending)
      else
        MoveAndCommit(Put(db, id, w.(phase := ReconcilePhase)), id, Start, Reconciling)
  }

  /* ---- intents and acceptances ---- */

  predicate PhaseOf(phase: Phase, side: Side) {
    (phase.SellPhase? && side.Sell?) || (phase.BuyPhase? && side.Buy?)
  }

  function PutLeg(db: Db, id: nat, i: nat, leg: Leg): Db
    requires id in db.workflows && i < |db.workflows[id].legs|
  {
    Put(db, id, db.workflows[id].(legs := db.workflows[id].legs[i := leg]))
  }

  // record_leg_intent: an intent already recorded is passed over in silence.
  function RecordIntent(db: Db, id: nat, i: nat): Result<Db, ExecError> {
    if id !in db.workflows then Err(UnknownWorkflow)
    else if i >= |db.workflows[id].legs| then Err(UnknownLeg)
    else
      var w, leg := db.workflows[id], db.workflows[id].legs[i];
      if !PhaseOf(w.phase, leg.spec.side) then Err(WrongPhase)
      else if leg.status.IntentRecorded? then Ok(db)
      else if !leg.status.Planned? then Err(IntentNeedsPlanned)
      else Ok(PutLeg(db, id, i, leg.(status := IntentRecorded)))
  }

  function RecordAcceptance(db: Db, id: nat, i: nat, orderId: nat): Result<Db, ExecError> {
    if id !in db.workflows then Err(UnknownWorkflow)
    else if i >= |db.workflows[id].legs| then Err(UnknownLeg)
    else
      var leg := db.workflows[id].legs[i];
      if leg.status in {BrokerAccepted, LegPending, LegPartial, LegFilled} then
        if leg.orderId == Some(orderId) then Ok(db) else Err(ConflictingOrderId)
      else if !leg.status.IntentRecorded? then Err(AcceptanceNeedsIntent)
      else Ok(PutLeg(db, id, i, leg.(status := BrokerAccepted, orderId := Some(orderId))))
  }

  predicate Ambiguous(leg: Leg) {
    leg.status.IntentRecorded? && leg.orderId.None?
  }

  predicate AnyAmbiguous(legs: seq<Leg>) {
    exists i :: 0 <= i < |legs| && Ambiguous(legs[i])
  }

  // require_reconciliation_for_ambiguous_intent; the flag says whether it changed anything.
  function RequireReconciliation(db: Db, id: nat): Result<(Db, bool), ExecError> {
    if id !in db.workflows then Err(UnknownWorkflow)
    else
      var w := db.workflows[id];
      if !w.status.Active? then Err(NotActive)
      else if !AnyAmbiguous(w.legs) then Ok((db, false))
      else
        match MoveAndCommit(Put(db, id, w.(status := ReconciliationRequired)), id, AmbiguousIntent, ReconRequired)
        case Err(e) => Err(e)
        case Ok(next) => Ok((next, true))
  }

  /* ---- reconciliation results ---- */

  const RECONCILED := {LegPending, LegPartial, LegFilled, LegFailed, LegUnknown}

  predicate Reconcilable(leg: Leg) {
    leg.orderId.Some? && leg.status in {BrokerAccepted, LegPending, LegPartial, LegFilled}
  }

  // The indexes of the legs of one side.
  function Indexes(legs: seq<Leg>, side: Side): set<nat> {
    set i: nat | 0 <= i < |legs| && legs[i].spec.side == side
  }

  // The legs with these statuses written over theirs.
  function WithStatuses(legs: seq<Leg>, statuses: map<nat, LegStatus>): seq<Leg> {
    seq(|legs|, i requires 0 <= i < |legs| => if i in statuses then legs[i].(status := statuses[i]) else legs[i])
  }

  datatype Verdict = Verdict(status: WorkflowStatus, phase: Phase, exec: ExecState)

  function SellVerdict(statuses: map<nat, LegStatus>): Verdict {
    if LegUnknown in statuses.Values then Verdict(ReconciliationRequired, SellPhase, ReconRequired)
    else if LegFailed in statuses.Values then Verdict(Failed, SellPhase, ExecFailed)
    else if LegPartial in statuses.Values then Verdict(Active, SellPhase, PartialFill)
    else if statuses.Values == {LegFilled} then Verdict(Active, ReconcilePhase, Reconciling)
    else Verdict(Active, SellPhase, SellPending)
  }

  predicate AllReconcilable(legs: seq<Leg>, side: Side) {
    forall i :: 0 <= i < |legs| && legs[i].spec.side == side ==> Reconcilable(legs[i])
  }

  function MarkSell(db: Db, id: nat, statuses: map<nat, LegStatus>): Result<Db, ExecError> {
    if !(statuses.Values <= RECONCILED) then Err(UnsupportedStatus)
    else if id !in db.workflows || !db.workflows[id].status.Active? || !db.workflows[id].phase.SellPhase? then Err(WrongPhase)
    else
      var w := db.workflows[id];
      if Indexes(w.legs, Sell) == {} || !AllReconcilable(w.legs, Sell) then Err(NotReconcilable)
      else if statuses.Keys != Indexes(w.legs, Sell) then Err(NotCovered)
      else
        var v := SellVerdict(statuses);
        MoveAndCommit(Put(db, id, Workflow(w.plan, v.status, v.phase, WithStatuses(w.legs, statuses))),
                      id, SellReconcile(v.exec), v.exec)
  }

  function BuyVerdict(statuses: map<nat, LegStatus>): Verdict {
    if LegUnknown in statuses.Values then Verdict(ReconciliationRequired, BuyPhase, ReconRequired)
    else if LegFailed in statuses.Values then Verdict(Failed, BuyPhase, ExecFailed)
    else if LegPartial in statuses.Values then Verdict(Active, BuyPhase, PartialFill)
    else if statuses.Values == {LegFilled} then Verdict(Complete, ReconcilePhase, Idle)
    else Verdict(Active, BuyPhase, BuyPending)
  }

  function MarkBuy(db: Db, id: nat, statuses: map<nat, LegStatus>): Result<Db, ExecError> {
    if !(statuses.Values <= RECONCILED) then Err(UnsupportedStatus)
    else if id !in db.workflows || !db.workflows[id].status.Active? || !db.workflows[id].phase.BuyPhase? then Err(WrongPhase)
    else
      var w := db.workflows[id];
      if Indexes(w.legs, Buy) == {} || !AllReconcilable(w.legs, Buy) then Err(NotReconcilable)
      else if statuses.Keys != Indexes(w.legs, Buy) then Err(NotCovered)
      else
        var v := BuyVerdict(statuses);
        MoveAndCommit(Put(db, id, Workflow(w.plan, v.status, v.phase, WithStatuses(w.legs, statuses))),
                      id, BuyReconcile(v.exec), v.exec)
  }

  // _persist_buy_progress of broker_executor_v04.py
  function PersistBuyProgress(
    db: Db, id: nat, statuses: map<nat, LegStatus>, status: WorkflowStatus, suffix: Suffix, to: ExecState
  ): Result<Db, ExecError>
  {
    if id !in db.workflows then Err(UnknownWorkflow)
    else
      var w := db.workflows[id];
      if !w.phase.BuyPhase? then Err(WrongPhase)
      else MoveAndCommit(Put(db, id, Workflow(w.plan, status, BuyPhase, WithStatuses(w.legs, statuses))), id, suffix, to)
  }

  /* ---- installing the buys ---- */

  function Estimates(specs: seq<LegSpec>): real {
    if specs == [] then 0.0
    else Estimates(DropLast(specs)) + if Last(specs).estimate.Some? then Last(specs).estimate.value else 0.0
  }

  // The cash boundary: at most one cent of debt.
  predicate CashOk(a: Account) {
    a.debt <= 1 && a.cash >= -1
  }

  function InstallBuys(db: Db, id: nat, specs: seq<LegSpec>): Result<Db, ExecError> {
    if !ValidLegs(specs, Buy) || exists i :: 0 <= i < |specs| && specs[i].estimate.None? then Err(InvalidLeg)
    else if id !in db.workflows || !db.workflows[id].status.Active? || !db.workflows[id].phase.ReconcilePhase? then Err(WrongPhase)
    else if !db.machine.exec.Reconciling? then Err(WrongExecState)
    else
      var w := db.workflows[id];
      if exists i :: 0 <= i < |w.legs| && w.legs[i].spec.side.Sell? && !w.legs[i].status.LegFilled? then Err(SellNotFilled)
      else if Indexes(w.legs, Buy) != {} then Err(BuysAlreadyInstalled)
      else if specs == [] then
        MoveAndCommit(Put(db, id, w.(status := Complete)), id, NoBuyComplete, Idle)
      else if !CashOk(db.machine.account) then Err(CashDebt)
      else if Estimates(specs) > db.machine.account.cash as real + 1.0 then Err(PlannedExceedsCash)
      else
        MoveAndCommit(Put(db, id, w.(phase := BuyPhase, legs := w.legs + PlannedLegs(specs))), id, BuyInstalled, BuyPending)
  }

  /* ---- fills and control ---- */

  function ApplyFillEvent(db: Db, event: FillEvent, decision: nat): Result<Db, ExecError> {
    match ApplyFill(db.machine.account, db.ledger, event, decision)
    case Err(e) => Err(CapitalFailed(e))
    case Ok((account, ledger)) => Ok(db.(machine := db.machine.(account := account), ledger := ledger))
  }

  // A call of transition_state in src/sp1execution/state/transitions_v04.py: whether its
  // dimension allows the move and the patched row validates is part of the attempt.
  datatype Control = Control(key: Key, content: nat, allowed: bool)

  function ControlTransition(db: Db, c: Control): Result<Db, ExecError>
    requires c.key.ControlKey?
  {
    match FindRow(db.journal, c.key)
    case Some(row) => if row.ExecRow? || row.content != c.content then Err(ConflictingTransition) else Ok(db)
    case None =>
      if !c.allowed then Err(ControlRefused)
      else if !db.machine.exec.Idle? then Err(NotIdle)
      else if ActiveIds(db) != {} then Err(OtherActive)
      else
        var a := db.machine.account;
        var next := db.(machine := db.machine.(account := a.(revision := a.revision + 1)),
                        journal := db.journal + [ControlRow(c.key, a.revision, a.revision + 1, c.content)]);
        if ValidMachine(next) then Ok(next) else Err(InvalidMachine)
  }

  function Initial(account: Account): Db {
    Db(Machine(account, Idle), map[], [], [])
  }
}
