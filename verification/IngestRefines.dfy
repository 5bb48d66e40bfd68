// ingest_source_event keeps the closed form: on each session the one ladder event that is
// signalled, if any, either joins the time line or is refused.
module IngestRefines {
  import opened Common
  import opened RecoveryTables
  import opened Dispatcher
  import opened StoreLemmas
  import opened StoreSteps
  import opened FinalSchedule
  import opened Timeline
  import opened ClosedForm
  import opened TableFacts
  import Robust
  import SC = SourceCompiler

  /* ---- Which events a session ingests ---- */

  // On a rising list, the events of a session are its next one or none.
  lemma {:induction false} EventsOnRising(events: seq<SourceEvent>, t: nat, m: nat)
    requires RisingSignals(events) && m <= |events|
    requires forall k :: 0 <= k < m ==> events[k].signal < t
    requires forall k :: m <= k < |events| ==> events[k].signal >= t
    ensures EventsOn(events, t) == if m < |events| && events[m].signal == t then [events[m]] else []
  {
    if events != [] {
      var front := DropLast(events);
      EventsOnRising(front, t, if m < |events| then m else m - 1);
      if m < |front| {
        assert events[m].signal < Last(events).signal;
      }
    }
  }

  lemma {:induction false} EntriesAppend(a: seq<SourceEvent>, b: seq<SourceEvent>)
    ensures Entries(a + b) == Entries(a) + Entries(b)
  {
    if b == [] {
      assert a + b == a;
    } else {
      EntriesAppend(a, DropLast(b));
      assert DropLast(a + b) == a + DropLast(b);
    }
  }

  lemma {:induction false} EntriesOn(events: seq<SourceEvent>, t: nat)
    ensures Entries(EventsOn(events, t)) == EventsOn(Entries(events), t)
  {
    if events != [] {
      var front := DropLast(events);
      EntriesOn(front, t);
      var last := if Last(events).signal == t then [Last(events)] else [];
      EntriesAppend(EventsOn(front, t), last);
      if Last(events).kind.EntryOrScale? {
        assert DropLast(Entries(front) + [Last(events)]) == Entries(front);
        assert DropLast([Last(events)]) == [];
        assert Entries([Last(events)]) == [Last(events)];
      } else {
        assert DropLast([Last(events)]) == [];
        assert Entries(last) == [] && Entries(events) == Entries(front);
      }
    }
  }

  lemma {:induction false} EntriesOfAll(cycles: seq<Cycle>, closes: seq<real>, m: nat)
    requires SC.PositiveCloses(closes) && SC.CompiledShape(cycles, closes, |closes|, |closes|) && m <= |cycles|
    ensures Entries(AllEvents(cycles[..m])) == LadderEvents(cycles[..m])
  {
    hide SC.CompiledShape, SC.CycleShape, SC.RecoveryShape;
    if m > 0 {
      EntriesOfAll(cycles, closes, m - 1);
      ShapeAt(cycles, closes, m - 1);
      EntriesAreLadder(cycles[m - 1], closes, |closes|, |closes|);
      assert DropLast(cycles[..m]) == cycles[..m - 1];
      EntriesAppend(AllEvents(cycles[..m - 1]), cycles[m - 1].events);
    }
  }

  ghost predicate WellTimed(events: seq<SourceEvent>, t: nat, sessionCount: nat) {
    forall e :: e in events ==> e.signal == t && e.execution == t + 1 < sessionCount
  }

  // Handoff events are ignored.
  lemma {:induction false} HandoffsIgnored(db: Db, events: seq<SourceEvent>, t: nat, sessionCount: nat)
    requires WellTimed(events, t, sessionCount)
    ensures IngestAll(db, events, t, sessionCount) == IngestAll(db, Entries(events), t, sessionCount)
    decreases |events|
  {
    hide Enqueue, JoinCycle;
    if events != [] {
      var e, rest := events[0], events[1..];
      assert e in events;
      EntriesAppend([e], rest);
      assert [e] + rest == events;
      var head := Ingest(db, e, t, sessionCount);
      HandoffsIgnored(End(db, head.commits), rest, t, sessionCount);
      if e.kind.EntryOrScale? {
        assert DropLast([e]) == [];
        assert Entries(events) == [e] + Entries(rest);
      } else {
        assert DropLast([e]) == [];
        assert Entries(events) == Entries(rest);
      }
    }
  }

  lemma {:induction false} OnSession(cycles: seq<Cycle>, closes: seq<real>, m: nat, t: nat)
    requires SC.PositiveCloses(closes) && SC.CompiledShape(cycles, closes, |closes|, |closes|) && m <= |cycles|
    ensures WellTimed(EventsOn(AllEvents(cycles[..m]), t), t, |closes|)
  {
    hide SC.CompiledShape, SC.CycleShape, SC.RecoveryShape;
    if m > 0 {
      OnSession(cycles, closes, m - 1, t);
      ShapeAt(cycles, closes, m - 1);
      CycleTimed(cycles[m - 1], closes, AllEvents(cycles[..m - 1]), t, |cycles[m - 1].events|);
      assert DropLast(cycles[..m]) == cycles[..m - 1];
      assert cycles[m - 1].events[..|cycles[m - 1].events|] == cycles[m - 1].events;
    }
  }

  lemma {:induction false} CycleTimed(c: Cycle, closes: seq<real>, before: seq<SourceEvent>, t: nat, m: nat)
    requires SC.PositiveCloses(closes) && SC.CycleShape(c, closes, |closes|, |closes|) && m <= |c.events|
    requires WellTimed(EventsOn(before, t), t, |closes|)
    ensures WellTimed(EventsOn(before + c.events[..m], t), t, |closes|)
  {
    hide SC.CycleShape;
    if m == 0 {
      assert before + c.events[..m] == before;
    } else {
      CycleTimed(c, closes, before, t, m - 1);
      assert DropLast(before + c.events[..m]) == before + c.events[..m - 1];
      EventTimed(c, closes, m - 1);
    }
  }

  lemma EventTimed(c: Cycle, closes: seq<real>, m: nat)
    requires SC.PositiveCloses(closes) && SC.CycleShape(c, closes, |closes|, |closes|) && m < |c.events|
    ensures c.events[m].execution == c.events[m].signal + 1 < |closes|
  {
    assert SC.EventFits(c.events[m], c, closes, |closes|, |closes|);
  }

  // What the replay ingests on session t: the next ladder event, if it is signalled now.
  lemma SessionEvents(cycles: seq<Cycle>, closes: seq<real>, db: Db, t: nat, executed: nat, observed: nat)
    requires SC.PositiveCloses(closes) && SC.CompiledShape(cycles, closes, |closes|, |closes|)
    requires OnTimeline(cycles, closes) && TableIs(cycles, closes, db.events, t, executed, observed)
    ensures var m, ladder := |db.events|, LadderEvents(cycles);
            IngestAll(db, EventsOn(AllEvents(cycles), t), t, |closes|) ==
            IngestAll(db, if m < |ladder| && ladder[m].signal == t then [ladder[m]] else [], t, |closes|)
  {
    hide SC.CompiledShape, OnTimeline, RowIs, IngestAll, Recovery;
    var n := |cycles|;
    assert cycles[..n] == cycles;
    OnSession(cycles, closes, n, t);
    EntriesOfAll(cycles, closes, n);
    HandoffsIgnored(db, EventsOn(AllEvents(cycles), t), t, |closes|);
    EntriesOn(AllEvents(cycles), t);
    LadderEventsRise(cycles, closes);
    EventsOnRising(LadderEvents(cycles), t, |db.events|);
  }

  /* ---- The store before the signals of session t ---- */

  ghost predicate Mid(cycles: seq<Cycle>, closes: seq<real>, db: Db, t: nat) {
    && t < |closes| && OnTimeline(cycles, closes) && OkBefore(cycles, closes, t) && EntryOk(cycles, closes, t)
    && StoreIs(cycles, closes, db, t, t + 1, t, 4 * t + 2)
  }

  lemma MidFacts(cycles: seq<Cycle>, closes: seq<real>, db: Db, t: nat)
    requires Mid(cycles, closes, db, t)
    ensures OnTimeline(cycles, closes) && OkBefore(cycles, closes, t) && EntryOk(cycles, closes, t) && t < |closes|
    ensures ValidState(db.state) && db.state.revision >= 1 && db.state.reserve == 0.0
    ensures CoreOfState(db.state) == CoreAt(cycles, closes, t, t + 1, t)
    ensures TableIs(cycles, closes, db.events, t, t + 1, t)
    ensures UniqueKeys(db.events) && forall k :: 0 <= k < |db.events| ==> db.events[k].key.signal < t
    ensures TradesAre(cycles, closes, TradesIn(db.transitions), t + 1)
    ensures ReturnsAre(cycles, closes, ReturnsIn(db.transitions), t + 1, t)
    ensures KeysBelow(db.transitions, 4 * t + 2)
  {
    hide OnTimeline, OkBefore, EntryOk, TableIs, CoreAt, KeysBelow, TradesAre, ReturnsAre, ValidState, UniqueKeys, RisingMaturity;
    TableKeys(cycles, closes, db.events, t, t + 1, t);
    StateIsValid(cycles, closes, db.state, t, t + 1, t);
  }

  // Ladder event j of cycle i is the next one, and is signalled on session t.
  ghost predicate Next(cycles: seq<Cycle>, closes: seq<real>, db: Db, t: nat, i: nat, j: nat) {
    var m, ladder := |db.events|, LadderEvents(cycles);
    && Mid(cycles, closes, db, t)
    && m < |ladder| && i < |cycles| && j < |SC.Ladder(cycles[i])|
    && ladder[m] == SC.Ladder(cycles[i])[j] && ladder[m].signal == t && ladder[m].cycleId == i + 1
  }

  lemma NextFacts(cycles: seq<Cycle>, closes: seq<real>, db: Db, t: nat, i: nat, j: nat)
    requires Next(cycles, closes, db, t, i, j)
    ensures var e := SC.Ladder(cycles[i])[j];
            && LadderFacts(e, cycles[i], closes) && e.signal == t && t + 1 < |closes|
            && e.cycleId == i + 1 == cycles[i].cycleId
            && FindEvent(db.events, KeyOf(e)).None?
    ensures CycleFacts(cycles[i], closes, i + 1) && cycles[i].cycleId == i + 1
    ensures SC.First(cycles[i]) <= t < Recovery(cycles[i], closes)
    ensures SC.First(cycles[i]) == t ==> j == 0
    ensures j == 0 ==> SC.First(cycles[i]) == t
  {
    hide Mid, CycleFacts, Recovery, LadderEvents, OnTimeline, OkBefore, EntryOk, UniqueKeys, TableIs, CoreAt, TradesAre, ReturnsAre;
    MidFacts(cycles, closes, db, t);
    FactsAt(cycles, closes, i);
    LadderFactsAt(cycles[i], closes, j);
    LadderBefore(cycles[i], closes, j);
    FirstOfLadder(cycles[i], closes);
    UnseenEvent(db.events, SC.Ladder(cycles[i])[j]);
  }

  // A ladder signal of session t can only be the next ladder event.
  lemma SignalIsNext(cycles: seq<Cycle>, closes: seq<real>, db: Db, t: nat, i: nat, j: nat)
    requires Mid(cycles, closes, db, t)
    requires i < |cycles| && j < |SC.Ladder(cycles[i])| && SC.Ladder(cycles[i])[j].signal == t
    ensures Next(cycles, closes, db, t, i, j)
  {
    hide CycleFacts, Recovery, OnTimeline, OkBefore, EntryOk, CoreAt, TradesAre, ReturnsAre, KeysBelow, RowIs, LadderEvents;
    var q := LadderEventOf(cycles, i, j);
    LadderEventsRise(cycles, closes);
    FactsAt(cycles, closes, i);
    LadderFactsAt(cycles[i], closes, j);
    var m, ladder := |db.events|, LadderEvents(cycles);
    assert m <= q;
    assert ladder[m].signal >= t == ladder[q].signal;
  }

  lemma NextIsOnly(cycles: seq<Cycle>, closes: seq<real>, db: Db, t: nat, i: nat, j: nat)
    requires Next(cycles, closes, db, t, i, j)
    ensures SignalOk(cycles, closes, t) <==> Accepted(cycles, closes, i, t)
  {
    hide Mid, Accepted, CycleFacts, LadderEvents;
    forall i', j' | 0 <= i' < |cycles| && 0 <= j' < |SC.Ladder(cycles[i'])| && SC.Ladder(cycles[i'])[j'].signal == t
      ensures i' == i
    {
      SignalIsNext(cycles, closes, db, t, i', j');
    }
  }

  lemma StartedIs(cycles: seq<Cycle>, closes: seq<real>, t: nat, s: nat)
    requires OnTimeline(cycles, closes) && s <= |cycles|
    requires forall k :: 0 <= k < s ==> SC.First(cycles[k]) < t
    requires forall k :: s <= k < |cycles| ==> SC.First(cycles[k]) >= t
    ensures Started(cycles, t) == s
  {
    hide CycleFacts, Recovery, OnTimeline;
    StartedBounds(cycles, closes, t);
    var r := Started(cycles, t);
    var atR := if r < |cycles| then SC.First(cycles[r]) else 0;
    var atS := if s < |cycles| then SC.First(cycles[s]) else 0;
  }

  lemma StartedNext(cycles: seq<Cycle>, closes: seq<real>, db: Db, t: nat, i: nat, j: nat)
    requires Next(cycles, closes, db, t, i, j)
    ensures Started(cycles, t + 1) == i + 1
    ensures Started(cycles, t) == if j == 0 then i else i + 1
  {
    hide Mid, CycleFacts, Recovery, LadderEvents, OnTimeline, LadderFacts;
    assert OnTimeline(cycles, closes) by { MidFacts(cycles, closes, db, t); }
    NextFacts(cycles, closes, db, t, i, j);
    StartedBounds(cycles, closes, t);
    StartedBounds(cycles, closes, t + 1);
    forall k | 0 <= k < |cycles| && SC.First(cycles[k]) == t ensures k == i {
      FactsAt(cycles, closes, k);
      FirstOfLadder(cycles[k], closes);
      SignalIsNext(cycles, closes, db, t, k, 0);
    }
    if i + 1 < |cycles| {
      NotYet(cycles, closes, db, t, i, j);
    }
    StartedIs(cycles, closes, t + 1, i + 1);
    StartedIs(cycles, closes, t, if j == 0 then i else i + 1);
  }

  // The cycle after the signalling one has not begun.
  lemma NotYet(cycles: seq<Cycle>, closes: seq<real>, db: Db, t: nat, i: nat, j: nat)
    requires Next(cycles, closes, db, t, i, j) && i + 1 < |cycles|
    ensures SC.First(cycles[i + 1]) > t
  {
    hide Mid, CycleFacts, LadderEvents, LadderFacts;
    NextFacts(cycles, closes, db, t, i, j);
    assert OnTimeline(cycles, closes) by { MidFacts(cycles, closes, db, t); }
    assert Recovery(cycles[i], closes) < SC.First(cycles[i + 1]);
  }

  lemma NoSignal(cycles: seq<Cycle>, closes: seq<real>, db: Db, t: nat)
    requires Mid(cycles, closes, db, t)
    requires |db.events| < |LadderEvents(cycles)| ==> LadderEvents(cycles)[|db.events|].signal != t
    ensures Started(cycles, t + 1) == Started(cycles, t)
    ensures SignalOk(cycles, closes, t)
    ensures StoreIs(cycles, closes, db, t + 1, t + 1, t, 4 * t + 3)
  {
    hide Mid, CycleFacts, Recovery, OnTimeline, OkBefore, EntryOk, LadderEvents, Accepted;
    MidFacts(cycles, closes, db, t);
    forall i, j | 0 <= i < |cycles| && 0 <= j < |SC.Ladder(cycles[i])| ensures SC.Ladder(cycles[i])[j].signal != t {
      if SC.Ladder(cycles[i])[j].signal == t {
        SignalIsNext(cycles, closes, db, t, i, j);
      }
    }
    StartedBounds(cycles, closes, t);
    forall k | 0 <= k < |cycles| ensures SC.First(cycles[k]) != t {
      FactsAt(cycles, closes, k);
      FirstOfLadder(cycles[k], closes);
      assert SC.Ladder(cycles[k])[0].signal != t;
    }
    StartedIs(cycles, closes, t + 1, Started(cycles, t));
    NoSignalTable(cycles, closes, db.events, t);
  }

  lemma NoSignalTable(cycles: seq<Cycle>, closes: seq<real>, rows: seq<EventRow>, t: nat)
    requires OnTimeline(cycles, closes) && TableIs(cycles, closes, rows, t, t + 1, t)
    requires |rows| < |LadderEvents(cycles)| ==> LadderEvents(cycles)[|rows|].signal != t
    ensures TableIs(cycles, closes, rows, t + 1, t + 1, t)
  {
    hide OnTimeline, RowIs, Recovery;
    LadderEventsRise(cycles, closes);
    var ladder := LadderEvents(cycles);
    forall k | |rows| <= k < |ladder| ensures ladder[k].signal >= t + 1 {
      assert k > |rows| ==> ladder[|rows|].signal < ladder[k].signal;
    }
  }

  /* ---- The next event joins ---- */

  // The table with its new row, settled as the closed form says.
  lemma Joined(cycles: seq<Cycle>, closes: seq<real>, db: Db, t: nat, i: nat, j: nat, next: Db)
    requires Next(cycles, closes, db, t, i, j)
    requires next.events == db.events + [RowOf(SC.Ladder(cycles[i])[j])
                              .(status := StatusOf(cycles[i], closes, SC.Ladder(cycles[i])[j], t + 1, t))]
    ensures TableIs(cycles, closes, next.events, t + 1, t + 1, t)
  {
    hide Mid, CycleFacts, Recovery, OnTimeline, OkBefore, EntryOk, LadderEvents, LadderFacts, StatusOf, CoreAt, TradesAre,
      ReturnsAre, KeysBelow;
    MidFacts(cycles, closes, db, t);
    NextFacts(cycles, closes, db, t, i, j);
    LadderEventsRise(cycles, closes);
    var ladder, rows := LadderEvents(cycles), next.events;
    forall k | 0 <= k < |rows| ensures ladder[k].signal < t + 1 && RowIs(cycles, closes, rows[k], ladder[k], t + 1, t) {
      if k < |db.events| {
        assert RowIs(cycles, closes, db.events[k], ladder[k], t + 1, t);
      }
    }
    forall k | |rows| <= k < |ladder| ensures ladder[k].signal >= t + 1 {
      assert ladder[|db.events|].signal < ladder[k].signal;
    }
  }

  lemma Queued(db: Db, e: SourceEvent, t: nat, sessionCount: nat)
    requires e.signal == t && t + 1 < sessionCount && e.execution == t + 1 && e.kind.EntryOrScale?
    requires Robust.FrozenTarget(e.target) && e.target > 0 && FindEvent(db.events, KeyOf(e)).None?
    ensures Ingest(db, e, t, sessionCount) ==
            if t + 1 + ENTRY_DELAY >= sessionCount then Run([], Err(CalendarEnds))
            else var queued := db.(events := db.events + [RowOf(e)]);
                 After([queued], JoinCycle(queued, e, sessionCount))
  {
    hide JoinCycle;
  }

  // A first signal finds the store idle, or an earlier cycle still holding it.
  lemma IdleAtStart(cycles: seq<Cycle>, closes: seq<real>, db: Db, t: nat, i: nat)
    requires Next(cycles, closes, db, t, i, 0) && t + 1 + ENTRY_DELAY < |closes|
    ensures Accepted(cycles, closes, i, t) ==> CoreOfState(db.state) == IDLE
    ensures !Accepted(cycles, closes, i, t) ==> db.state.phase.RecoveryActive? && db.state.cycleId == Some(i)
  {
    hide Mid, CycleFacts, Recovery, OnTimeline, OkBefore, EntryOk, LadderEvents, LadderFacts, TradesAre, ReturnsAre,
      KeysBelow, TableIs, UniqueKeys, ValidState;
    MidFacts(cycles, closes, db, t);
    NextFacts(cycles, closes, db, t, i, 0);
    StartedNext(cycles, closes, db, t, i, 0);
    if i > 0 {
      var p := cycles[i - 1];
      FactsAt(cycles, closes, i - 1);
      StartedBounds(cycles, closes, t);
      assert Recovery(p, closes) < SC.First(cycles[i]) by { Apart(cycles, closes, i - 1, i); }
      forall k | 0 <= k < i - 1 ensures CutShort(cycles[k], closes) || ExitSession(cycles[k]) <= t {
        EarlierCycleOver(cycles, closes, k, i - 1, t);
      }
    }
  }

  lemma Apart(cycles: seq<Cycle>, closes: seq<real>, i: nat, k: nat)
    requires OnTimeline(cycles, closes) && i < k < |cycles|
    ensures Recovery(cycles[i], closes) < SC.First(cycles[k])
  {
  }

  lemma FirstSignal(cycles: seq<Cycle>, closes: seq<real>, db: Db, t: nat, i: nat)
    requires Next(cycles, closes, db, t, i, 0)
    ensures var run := Ingest(db, SC.Ladder(cycles[i])[0], t, |closes|);
            && (run.outcome.Ok? <==> Accepted(cycles, closes, i, t))
            && (run.outcome.Ok? ==> StoreIs(cycles, closes, End(db, run.commits), t + 1, t + 1, t, 4 * t + 3))
  {
    hide Mid, CycleFacts, Recovery, OnTimeline, OkBefore, EntryOk, LadderEvents, TradesAre, ReturnsAre,
      KeysBelow, TableIs, UniqueKeys, ValidState, Accepted, Ingest, Transition, CutShort, StoreIs;
    var e := SC.Ladder(cycles[i])[0];
    MidFacts(cycles, closes, db, t);
    NextFacts(cycles, closes, db, t, i, 0);
    Queued(db, e, t, |closes|);
    if t + 1 + ENTRY_DELAY >= |closes| {
      PastCalendar(cycles, closes, i, t);
    } else {
      IdleAtStart(cycles, closes, db, t, i);
      if Accepted(cycles, closes, i, t) {
        CycleBegins(cycles, closes, db, t, i);
      }
    }
  }

  lemma PastCalendar(cycles: seq<Cycle>, closes: seq<real>, i: nat, t: nat)
    requires i < |cycles| && t + 1 + ENTRY_DELAY >= |closes|
    ensures !Accepted(cycles, closes, i, t)
  {
  }

  lemma CycleBegins(cycles: seq<Cycle>, closes: seq<real>, db: Db, t: nat, i: nat)
    requires Next(cycles, closes, db, t, i, 0) && CoreOfState(db.state) == IDLE
    ensures var e := SC.Ladder(cycles[i])[0];
            var queued := db.(events := db.events + [RowOf(e)]);
            var run := JoinCycle(queued, e, |closes|);
            && run.outcome == Ok(StillPending) && run.commits != []
            && StoreIs(cycles, closes, End(queued, run.commits), t + 1, t + 1, t, 4 * t + 3)
  {
    hide Mid, CycleFacts, Recovery, OnTimeline, OkBefore, EntryOk, LadderEvents, TradesAre, ReturnsAre,
      KeysBelow, TableIs, UniqueKeys, Transition, CutShort;
    var e := SC.Ladder(cycles[i])[0];
    var queued := db.(events := db.events + [RowOf(e)]);
    MidFacts(cycles, closes, db, t);
    NextFacts(cycles, closes, db, t, i, 0);
    StartedNext(cycles, closes, db, t, i, 0);
    FirstOfLadder(cycles[i], closes);
    FreshKey(db.transitions, 4 * t + 2, StartKey(i + 1, t));
    var payload := StartPayload(KeyOf(e), e.oldAthDate);
    TransitionMoves(queued, StartKey(i + 1, t), WaitD40, StartSourceCycle, StartUpdates(e), payload);
    var next := Moved(queued, StartKey(i + 1, t), WaitD40, StartSourceCycle, StartUpdates(e), payload);
    assert Settle(next, e, |closes|) == Run([], Ok(StillPending));
    assert [next] + [] == [next];
    Joined(cycles, closes, db, t, i, 0, next);
    JournalStart(queued, next, t, i);
  }

  lemma JournalStart(db: Db, next: Db, t: nat, i: nat)
    requires |next.transitions| == |db.transitions| + 1 && next.transitions[..|db.transitions|] == db.transitions
    requires Last(next.transitions).key == StartKey(i + 1, t)
    requires KeysBelow(db.transitions, 4 * t + 2)
    ensures TradesIn(next.transitions) == TradesIn(db.transitions)
    ensures ReturnsIn(next.transitions) == ReturnsIn(db.transitions)
    ensures KeysBelow(next.transitions, 4 * t + 3)
  {
    assert DropLast(next.transitions) == db.transitions;
    forall k | 0 <= k < |next.transitions| ensures KeyRank(next.transitions[k].key) < 4 * t + 3 {
      if k < |db.transitions| {
        assert next.transitions[k] == db.transitions[k];
      }
    }
  }

  // A later signal joins its own cycle: pending, or cancelled when it matures at the exit or later.
  lemma LaterSignal(cycles: seq<Cycle>, closes: seq<real>, db: Db, t: nat, i: nat, j: nat)
    requires Next(cycles, closes, db, t, i, j) && j > 0
    ensures var run := Ingest(db, SC.Ladder(cycles[i])[j], t, |closes|);
            && (run.outcome.Ok? <==> Accepted(cycles, closes, i, t))
            && (run.outcome.Ok? ==> StoreIs(cycles, closes, End(db, run.commits), t + 1, t + 1, t, 4 * t + 3))
  {
    hide Mid, CycleFacts, Recovery, OnTimeline, OkBefore, EntryOk, LadderEvents, TradesAre, ReturnsAre,
      KeysBelow, TableIs, UniqueKeys, ValidState, Accepted, Ingest, CutShort, StoreIs, SetStatus;
    var e, c := SC.Ladder(cycles[i])[j], cycles[i];
    MidFacts(cycles, closes, db, t);
    NextFacts(cycles, closes, db, t, i, j);
    Queued(db, e, t, |closes|);
    LaterAccepted(cycles, closes, db, t, i, j);
    if t + 1 + ENTRY_DELAY < |closes| {
      var queued := db.(events := db.events + [RowOf(e)]);
      StartedNext(cycles, closes, db, t, i, j);
      if db.state.phase.RecoveryActive? {
        EntryMade(cycles, closes, i, t);
        if Maturity(e) >= ExitSession(c) {
          SettledCancelled(queued, db, e, t);
          LaterKept(cycles, closes, db, t, i, j,
                    db.(events := db.events + [RowOf(e).(status := Cancelled)]));
        } else {
          LaterKept(cycles, closes, db, t, i, j, queued);
        }
      } else if db.state.phase.WaitD40? {
        LaterKept(cycles, closes, db, t, i, j, queued);
      }
    }
  }

  lemma EntryMade(cycles: seq<Cycle>, closes: seq<real>, i: nat, t: nat)
    requires OkBefore(cycles, closes, t) && EntryOk(cycles, closes, t)
    requires i < |cycles| && !CutShort(cycles[i], closes) && EntrySession(cycles[i]) <= t
    ensures ExitSession(cycles[i]) < |closes|
  {
    hide Recovery, SignalOk, CutShort;
    assert EntryOk(cycles, closes, EntrySession(cycles[i]));
  }

  lemma LaterAccepted(cycles: seq<Cycle>, closes: seq<real>, db: Db, t: nat, i: nat, j: nat)
    requires Next(cycles, closes, db, t, i, j) && j > 0
    ensures Accepted(cycles, closes, i, t) <==>
            t + 1 + ENTRY_DELAY < |closes| && (!CutShort(cycles[i], closes) ==> t < ExitSession(cycles[i]))
  {
    hide Mid, CycleFacts, Recovery, OnTimeline, OkBefore, EntryOk, LadderEvents, TradesAre, ReturnsAre,
      KeysBelow, TableIs, UniqueKeys, ValidState, CutShort, CoreAt;
    MidFacts(cycles, closes, db, t);
    NextFacts(cycles, closes, db, t, i, j);
    forall k | 0 <= k < i ensures CutShort(cycles[k], closes) || ExitSession(cycles[k]) <= t {
      EarlierCycleOver(cycles, closes, k, i, t);
    }
  }

  lemma SettledCancelled(queued: Db, db: Db, e: SourceEvent, t: nat)
    requires queued == db.(events := db.events + [RowOf(e)]) && e.signal == t
    requires UniqueKeys(db.events) && forall k :: 0 <= k < |db.events| ==> db.events[k].key.signal < t
    ensures SetStatus(queued, KeyOf(e), Cancelled) ==
            Ok(db.(events := db.events + [RowOf(e).(status := Cancelled)]))
  {
    var k := |db.events|;
    assert queued.events[k] == RowOf(e);
    SetStatusAt(queued, k, Cancelled);
    assert WithStatus(queued.events, KeyOf(e), Cancelled) == db.events + [RowOf(e).(status := Cancelled)];
  }

  lemma LaterKept(cycles: seq<Cycle>, closes: seq<real>, db: Db, t: nat, i: nat, j: nat, next: Db)
    requires Next(cycles, closes, db, t, i, j) && j > 0 && Accepted(cycles, closes, i, t)
    requires next == db.(events := db.events + [RowOf(SC.Ladder(cycles[i])[j])
      .(status := if !CutShort(cycles[i], closes) && Maturity(SC.Ladder(cycles[i])[j]) >= ExitSession(cycles[i]) then Cancelled else Pending)])
    ensures StoreIs(cycles, closes, next, t + 1, t + 1, t, 4 * t + 3)
  {
    hide Mid, CycleFacts, Recovery, OnTimeline, OkBefore, EntryOk, LadderEvents, TradesAre, ReturnsAre,
      TableIs, UniqueKeys, ValidState, Accepted, CutShort;
    MidFacts(cycles, closes, db, t);
    NextFacts(cycles, closes, db, t, i, j);
    StartedNext(cycles, closes, db, t, i, j);
    Joined(cycles, closes, db, t, i, j, next);
  }

  lemma IngestStep(cycles: seq<Cycle>, closes: seq<real>, db: Db, t: nat)
    requires SC.PositiveCloses(closes) && SC.CompiledShape(cycles, closes, |closes|, |closes|)
    requires Mid(cycles, closes, db, t)
    ensures var run := IngestAll(db, EventsOn(AllEvents(cycles), t), t, |closes|);
            && (run.outcome.Ok? <==> SignalOk(cycles, closes, t))
            && (run.outcome.Ok? ==> StoreIs(cycles, closes, End(db, run.commits), t + 1, t + 1, t, 4 * t + 3))
  {
    hide Mid, SC.CompiledShape, CycleFacts, Recovery, OnTimeline, OkBefore, EntryOk, LadderEvents, TradesAre, ReturnsAre,
      TableIs, UniqueKeys, ValidState, Accepted, CutShort, StoreIs, SignalOk, Ingest, EventsOn;
    MidFacts(cycles, closes, db, t);
    SessionEvents(cycles, closes, db, t, t + 1, t);
    var m, ladder := |db.events|, LadderEvents(cycles);
    if m < |ladder| && ladder[m].signal == t {
      var i, j := LadderEventAt(cycles, closes, m);
      SignalIsNext(cycles, closes, db, t, i, j);
      NextIsOnly(cycles, closes, db, t, i, j);
      if j == 0 {
        FirstSignal(cycles, closes, db, t, i);
      } else {
        LaterSignal(cycles, closes, db, t, i, j);
      }
      OneIngest(db, ladder[m], t, |closes|);
    } else {
      NoSignal(cycles, closes, db, t);
    }
  }

  lemma OneIngest(db: Db, e: SourceEvent, t: nat, sessionCount: nat)
    ensures IngestAll(db, [e], t, sessionCount).outcome.Ok? <==> Ingest(db, e, t, sessionCount).outcome.Ok?
    ensures IngestAll(db, [e], t, sessionCount).commits == Ingest(db, e, t, sessionCount).commits
  {
    hide Ingest;
    var head := Ingest(db, e, t, sessionCount);
    assert [e][1..] == [];
    assert head.commits + [] == head.commits;
  }
}
