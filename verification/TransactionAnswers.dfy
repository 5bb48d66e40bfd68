// Exactly which transactions of the execution store are accepted, on any store, and what they change.
module TransactionAnswers {
  import opened Common
  import opened Capital
  import opened ExecutionTables
  import opened Executor
  import opened ExecutionSteps
  import opened ExecutionInvariant
  import opened CycleMakes

  ghost predicate IsRow(journal: seq<Row>, key: Key, row: Row) {
    row in journal && row.key == key
  }

  ghost predicate HasKey(journal: seq<Row>, key: Key) {
    exists row :: IsRow(journal, key, row)
  }

  lemma OneRow(journal: seq<Row>, key: Key)
    requires DistinctRows(journal)
    ensures FindRow(journal, key).None? <==> !HasKey(journal, key)
    ensures FindRow(journal, key).Some? ==> forall row :: IsRow(journal, key, row) <==> row == FindRow(journal, key).value
  {
    if FindRow(journal, key).Some? {
      var found := FindRow(journal, key).value;
      assert IsRow(journal, key, found);
      forall row | IsRow(journal, key, row) ensures row == found {
        var i :| 0 <= i < |journal| && journal[i] == row;
        var j :| 0 <= j < |journal| && journal[j] == found;
      }
    }
  }

  // Cash and debt in euro may not both show that more than a cent, and a tenth of one, is owed
  // beyond what the debt records.
  ghost predicate CashTied(a: Account) {
    var cash, debt := a.cash as real / 100.0, a.debt as real / 100.0;
    cash < -0.01 ==> debt + cash >= -0.011
  }

  // Nothing is ACTIVE while the machine idles.
  ghost predicate IdleIsFree(db: Db) {
    db.machine.exec.Idle? ==> forall id :: id in db.workflows ==> !db.workflows[id].status.Active?
  }

  lemma ValidIs(db: Db)
    ensures ValidMachine(db) <==> CashTied(db.machine.account) && IdleIsFree(db)
  {
    if ActiveIds(db) != {} {
      var id :| id in ActiveIds(db);
    }
    if id :| id in db.workflows && db.workflows[id].status.Active? {
      assert id in ActiveIds(db);
    }
  }

  // Moving the machine under a new key journals one row if it moves at all; under a journaled key it
  // is accepted iff that row led to the same state, and then nothing moves.
  lemma MoveAnswers(db: Db, id: nat, suffix: Suffix, to: ExecState)
    requires DistinctRows(db.journal)
    ensures var r, key, a := MoveAndCommit(db, id, suffix, to), ExecKey(id, suffix), db.machine.account;
            && (r.Ok? <==>
                  && CashTied(a)
                  && if HasKey(db.journal, key) then
                       (exists row :: IsRow(db.journal, key, row) && row.ExecRow? && row.toState == to) && IdleIsFree(db)
                     else IdleIsFree(db.(machine := Machine(a, to))))
            && (r.Ok? ==>
                  if HasKey(db.journal, key) || db.machine.exec == to then r.value == db
                  else r.value == db.(machine := Machine(a.(revision := a.revision + 1), to),
                                      journal := db.journal + [ExecRow(key, a.revision, a.revision + 1, db.machine.exec, to)]))
  {
    hide FindRow, ValidMachine, HasKey, IsRow, CashTied, IdleIsFree;
    var key := ExecKey(id, suffix);
    OneRow(db.journal, key);
    if FindRow(db.journal, key).Some? {
      RowIs(db.journal, key);
    }
    if SetExec(db, id, suffix, to).Ok? {
      var next := SetExec(db, id, suffix, to).value;
      ValidIs(next);
      SameTies(db.machine.account, next.machine.account);
      SameFree(next, db.(machine := Machine(db.machine.account, next.machine.exec)));
      assert db.machine.exec == to ==> db.(machine := Machine(db.machine.account, to)) == db;
    }
  }

  lemma RowIs(journal: seq<Row>, key: Key)
    requires DistinctRows(journal) && FindRow(journal, key).Some?
    ensures HasKey(journal, key) && IsRow(journal, key, FindRow(journal, key).value)
    ensures forall row :: IsRow(journal, key, row) ==> row == FindRow(journal, key).value
  {
    OneRow(journal, key);
  }

  lemma SameTies(a: Account, b: Account)
    requires a.cash == b.cash && a.debt == b.debt
    ensures CashTied(a) <==> CashTied(b)
  {
  }

  lemma SameFree(a: Db, b: Db)
    requires a.workflows == b.workflows && a.machine.exec == b.machine.exec
    ensures IdleIsFree(a) <==> IdleIsFree(b)
  {
  }

  // A control row is written once, when its dimension allows it, the machine idles and nothing is
  // ACTIVE; journaled before, it is accepted iff it says the same, and changes nothing.
  lemma ControlAnswers(db: Db, c: Control)
    requires DistinctRows(db.journal) && c.key.ControlKey?
    ensures var r, a := ControlTransition(db, c), db.machine.account;
            && (r.Ok? <==>
                  if HasKey(db.journal, c.key) then exists row :: IsRow(db.journal, c.key, row) && row.ControlRow? && row.content == c.content
                  else c.allowed && db.machine.exec.Idle? && IdleIsFree(db) && CashTied(a))
            && (r.Ok? ==>
                  if HasKey(db.journal, c.key) then r.value == db
                  else r.value == db.(machine := db.machine.(account := a.(revision := a.revision + 1)),
                                      journal := db.journal + [ControlRow(c.key, a.revision, a.revision + 1, c.content)]))
  {
    hide FindRow, ValidMachine, HasKey, IsRow, CashTied, IdleIsFree;
    OneRow(db.journal, c.key);
    if FindRow(db.journal, c.key).Some? {
      RowIs(db.journal, c.key);
    } else if c.allowed && db.machine.exec.Idle? {
      FreeIs(db);
      var a := db.machine.account;
      var next := db.(machine := db.machine.(account := a.(revision := a.revision + 1)),
                      journal := db.journal + [ControlRow(c.key, a.revision, a.revision + 1, c.content)]);
      ValidIs(next);
      SameTies(a, next.machine.account);
      SameFree(next, db);
    }
  }

  lemma FreeIs(db: Db)
    requires db.machine.exec.Idle?
    ensures IdleIsFree(db) <==> ActiveIds(db) == {}
  {
    if ActiveIds(db) != {} {
      var id :| id in ActiveIds(db);
    }
    if id :| id in db.workflows && db.workflows[id].status.Active? {
      assert id in ActiveIds(db);
    }
  }

  // Leg i of a workflow that is there.
  ghost predicate HasLeg(db: Db, id: nat, i: nat) {
    id in db.workflows && i < |db.workflows[id].legs|
  }

  ghost predicate LegBecomes(db: Db, next: Db, id: nat, i: nat, leg: Leg)
    requires HasLeg(db, id, i)
  {
    next == db.(workflows := db.workflows[id := db.workflows[id].(legs := db.workflows[id].legs[i := leg])])
  }

  // An intent is recorded for a planned leg of the phase, and passed over if it is recorded already.
  lemma IntentAnswers(db: Db, id: nat, i: nat)
    ensures var r := RecordIntent(db, id, i);
            && (r.Ok? <==>
                  && HasLeg(db, id, i)
                  && var w, leg := db.workflows[id], db.workflows[id].legs[i];
                     && (leg.status.Planned? || leg.status.IntentRecorded?)
                     && (if leg.spec.side.Sell? then w.phase.SellPhase? else w.phase.BuyPhase?))
            && (r.Ok? ==> LegBecomes(db, r.value, id, i, db.workflows[id].legs[i].(status := IntentRecorded)))
  {
    if HasLeg(db, id, i) && db.workflows[id].legs[i].status.IntentRecorded? {
      var w := db.workflows[id];
      assert w.legs[i := w.legs[i]] == w.legs;
      assert db.workflows[id := w] == db.workflows;
    }
  }

  // An order id is recorded after an intent, once: later only the same id passes.
  lemma AcceptanceAnswers(db: Db, id: nat, i: nat, orderId: nat)
    ensures var r := RecordAcceptance(db, id, i, orderId);
            && (r.Ok? <==>
                  && HasLeg(db, id, i)
                  && var leg := db.workflows[id].legs[i];
                     || leg.status.IntentRecorded?
                     || (leg.orderId == Some(orderId) && leg.status in {BrokerAccepted, LegPending, LegPartial, LegFilled}))
            && (r.Ok? ==>
                  var leg := db.workflows[id].legs[i];
                  LegBecomes(db, r.value, id, i,
                             if leg.status.IntentRecorded? then leg.(status := BrokerAccepted, orderId := Some(orderId)) else leg))
  {
    if HasLeg(db, id, i) && !db.workflows[id].legs[i].status.IntentRecorded? {
      var w := db.workflows[id];
      assert w.legs[i := w.legs[i]] == w.legs;
      assert db.workflows[id := w] == db.workflows;
    }
  }
}
