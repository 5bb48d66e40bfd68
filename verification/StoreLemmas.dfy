// Facts about the tables that the dispatcher proofs share: keyed lookups, status
// updates, the open-row list and the two loops over it.
module StoreLemmas {
  import opened Common
  import opened RecoveryTables
  import opened Dispatcher

  ghost predicate UniqueKeys(events: seq<EventRow>) {
    forall i, j :: 0 <= i < j < |events| ==> events[i].key != events[j].key
  }

  lemma {:induction false} FindEventAt(events: seq<EventRow>, k: nat)
    requires UniqueKeys(events) && k < |events|
    ensures FindEvent(events, events[k].key) == Some(events[k])
  {
    if k < |events| - 1 {
      FindEventAt(DropLast(events), k);
    }
  }

  lemma UniqueAfterStatus(events: seq<EventRow>, key: SourceKey, toStatus: EventStatus)
    requires UniqueKeys(events)
    ensures UniqueKeys(WithStatus(events, key, toStatus))
  {
  }

  lemma StatusTwice(events: seq<EventRow>, key: SourceKey, a: EventStatus, b: EventStatus)
    ensures WithStatus(WithStatus(events, key, a), key, b) == WithStatus(events, key, b)
  {
  }

  // A status update that the store accepts.
  lemma SetStatusAt(db: Db, k: nat, toStatus: EventStatus)
    requires UniqueKeys(db.events) && k < |db.events| && AllowedStatus(db.events[k].status, toStatus)
    ensures SetStatus(db, db.events[k].key, toStatus) ==
            Ok(db.(events := WithStatus(db.events, db.events[k].key, toStatus)))
  {
    FindEventAt(db.events, k);
  }

  // Exactly the open rows of the cycle are listed.
  lemma {:induction false} OpenRowsMembers(events: seq<EventRow>, cycleId: Option<nat>, row: EventRow)
    ensures row in OpenRows(events, cycleId) <==>
            row in events && Open(row) && (cycleId.None? || cycleId.value == row.cycleId)
  {
    if events != [] {
      OpenRowsMembers(DropLast(events), cycleId, row);
      assert events == DropLast(events) + [Last(events)];
    }
  }

  ghost predicate RisingMaturity(rows: seq<EventRow>) {
    forall i, j :: 0 <= i < j < |rows| ==> rows[i].maturity < rows[j].maturity
  }

  lemma OnlyThisRow(rows: seq<EventRow>, k: nat)
    requires RisingMaturity(rows) && UniqueKeys(rows) && k < |rows|
    ensures forall m :: 0 <= m < |rows| && rows[m].maturity == rows[k].maturity ==> m == k
    ensures forall m :: 0 <= m < |rows| && rows[m].key == rows[k].key ==> m == k
  {
    forall m | 0 <= m < |rows| && m != k ensures rows[m].maturity != rows[k].maturity && rows[m].key != rows[k].key {
      assert m < k ==> rows[m].maturity < rows[k].maturity && rows[m].key != rows[k].key;
      assert k < m ==> rows[k].maturity < rows[m].maturity && rows[k].key != rows[m].key;
    }
  }

  lemma {:induction false} OpenRowsRise(events: seq<EventRow>, cycleId: Option<nat>)
    requires RisingMaturity(events)
    ensures RisingMaturity(OpenRows(events, cycleId))
  {
    if events != [] {
      var front := DropLast(events);
      OpenRowsRise(front, cycleId);
      var open := OpenRows(front, cycleId);
      forall i | 0 <= i < |open| ensures open[i].maturity < Last(events).maturity {
        OpenRowsMembers(front, cycleId, open[i]);
        var k :| 0 <= k < |front| && front[k] == open[i];
        assert events[k].maturity < events[|events| - 1].maturity;
      }
    }
  }

  // When maturities rise with insertion, pending_events is the list of open rows.
  lemma PendingInOrder(db: Db, cycleId: Option<nat>)
    requires RisingMaturity(db.events)
    ensures PendingEvents(db, cycleId) == OpenRows(db.events, cycleId)
    ensures RisingMaturity(OpenRows(db.events, cycleId))
  {
    OpenRowsRise(db.events, cycleId);
    SortOfSorted(EarlierMaturity, OpenRows(db.events, cycleId));
  }

  lemma {:induction false} NothingOpen(events: seq<EventRow>, cycleId: Option<nat>)
    requires forall row :: row in events && Open(row) ==> cycleId.Some? && cycleId.value != row.cycleId
    ensures OpenRows(events, cycleId) == []
  {
    if OpenRows(events, cycleId) != [] {
      OpenRowsMembers(events, cycleId, OpenRows(events, cycleId)[0]);
    }
  }

  // With nothing missed, the due rows are those maturing on the session: at most one here.
  lemma {:induction false} DueRowsOf(rows: seq<EventRow>, session: nat, sessionCount: nat)
    requires RisingMaturity(rows)
    requires forall i :: 0 <= i < |rows| ==> session <= rows[i].maturity < sessionCount
    ensures DueRows(rows, session, sessionCount).Ok?
    ensures forall i :: 0 <= i < |rows| && rows[i].maturity == session ==>
              DueRows(rows, session, sessionCount).value == [rows[i]]
    ensures (forall i :: 0 <= i < |rows| ==> rows[i].maturity != session) ==>
              DueRows(rows, session, sessionCount).value == []
  {
    if rows != [] {
      var front := DropLast(rows);
      DueRowsOf(front, session, sessionCount);
      if |front| > 0 {
        assert rows[0].maturity < rows[|rows| - 1].maturity;
      }
      forall i | 0 <= i < |rows| && rows[i].maturity == session
        ensures DueRows(rows, session, sessionCount).value == [rows[i]]
      {
        if i < |front| {
          assert front[i] == rows[i];
        }
      }
    }
  }

  // Bounded cancellation spares everything maturing before the bound.
  lemma {:induction false} CancelRowsSpares(db: Db, rows: seq<EventRow>, bound: nat, sessionCount: nat)
    requires forall i :: 0 <= i < |rows| ==> rows[i].maturity < bound && rows[i].maturity < sessionCount
    ensures CancelRows(db, rows, Some(bound), sessionCount) == Run([], Ok(()))
    decreases |rows|
  {
    if rows != [] {
      CancelRowsSpares(db, rows[1..], bound, sessionCount);
    }
  }

  // The event table once these rows are cancelled.
  function CancelAll(events: seq<EventRow>, rows: seq<EventRow>): seq<EventRow>
    decreases |rows|
  {
    if rows == [] then events else CancelAll(WithStatus(events, rows[0].key, Cancelled), rows[1..])
  }

  lemma {:induction false} CancelAllAt(events: seq<EventRow>, rows: seq<EventRow>, k: nat)
    requires k < |events|
    ensures |CancelAll(events, rows)| == |events|
    ensures CancelAll(events, rows)[k] ==
            if exists r :: r in rows && r.key == events[k].key then events[k].(status := Cancelled) else events[k]
    decreases |rows|
  {
    if rows != [] {
      var next := WithStatus(events, rows[0].key, Cancelled);
      CancelAllAt(next, rows[1..], k);
      if exists r :: r in rows && r.key == events[k].key {
        var r :| r in rows && r.key == events[k].key;
        assert r == rows[0] || r in rows[1..];
      }
    }
  }

  // Each of these rows is in the table as listed, and open.
  ghost predicate Listed(events: seq<EventRow>, rows: seq<EventRow>) {
    && UniqueKeys(events) && UniqueKeys(rows)
    && forall i :: 0 <= i < |rows| ==> rows[i] in events && Open(rows[i])
  }

  lemma ListedNext(events: seq<EventRow>, rows: seq<EventRow>)
    requires Listed(events, rows) && rows != []
    ensures Listed(WithStatus(events, rows[0].key, Cancelled), rows[1..])
  {
    var next := WithStatus(events, rows[0].key, Cancelled);
    forall i | 0 <= i < |rows[1..]| ensures rows[1..][i] in next {
      assert rows[1..][i] == rows[i + 1];
      var k :| 0 <= k < |events| && events[k] == rows[i + 1];
      assert next[k] == events[k];
    }
  }

  // Cancelling listed rows always succeeds and touches nothing but their status.
  lemma {:induction false} CancelRowsDoes(db: Db, rows: seq<EventRow>, sessionCount: nat)
    requires Listed(db.events, rows)
    ensures CancelRows(db, rows, None, sessionCount).outcome == Ok(())
    ensures End(db, CancelRows(db, rows, None, sessionCount).commits) == db.(events := CancelAll(db.events, rows))
    decreases |rows|
  {
    if rows != [] {
      var k :| 0 <= k < |db.events| && db.events[k] == rows[0];
      SetStatusAt(db, k, Cancelled);
      ListedNext(db.events, rows);
      var next := db.(events := WithStatus(db.events, rows[0].key, Cancelled));
      CancelRowsDoes(next, rows[1..], sessionCount);
      EndAfter(db, [next], CancelRows(next, rows[1..], None, sessionCount).commits);
    }
  }

  lemma EndAfter(db: Db, a: seq<Db>, b: seq<Db>)
    ensures End(db, a + b) == End(End(db, a), b)
  {
    if b == [] {
      assert a + b == a;
    }
  }

  lemma {:induction false} OpenRowsListed(events: seq<EventRow>, cycleId: Option<nat>)
    requires UniqueKeys(events)
    ensures Listed(events, OpenRows(events, cycleId))
  {
    var open := OpenRows(events, cycleId);
    forall i | 0 <= i < |open| ensures open[i] in events && Open(open[i]) {
      OpenRowsMembers(events, cycleId, open[i]);
    }
    if events != [] {
      var front := DropLast(events);
      OpenRowsListed(front, cycleId);
      var before := OpenRows(front, cycleId);
      forall i | 0 <= i < |before| ensures before[i].key != Last(events).key {
        var k :| 0 <= k < |front| && front[k] == before[i];
        assert events[k].key != events[|events| - 1].key;
      }
    }
  }
}
