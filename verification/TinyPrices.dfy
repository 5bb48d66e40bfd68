// Prices of the size of the dispatcher's tolerance: a history on which a ladder signal follows a
// close taken for the recovery.  The dispatcher enters the same cycle twice, the schedule once,
// although the two agree which cycles are cancelled.
module TinyPrices {
  import opened Common
  import opened RecoveryTables
  import opened Dispatcher
  import opened StoreLemmas
  import opened StoreSteps
  import opened FinalSchedule
  import opened Timeline
  import opened ClosedForm
  import opened Refinement
  import opened Histories
  import R = Robust
  import SC = SourceCompiler

  const PEAK := 0.000000004

  const LOW := 0.0000000024

  const NEAR := 0.0000000032

  const DEEP := 0.000000002

  // A crash to 60% of the peak at session 1, one close at 80% at session 50, and a fall to 50% from
  // session 421 on, the day after the exit.
  function Tiny(m: nat): seq<real> {
    [PEAK] + seq(49, _ => LOW) + [NEAR] + seq(370, _ => LOW) + seq(m, _ => DEEP)
  }

  lemma TinyCloses(m: nat)
    ensures var closes := Tiny(m);
            && |closes| == 421 + m && SC.PositiveCloses(closes)
            && closes[0] == PEAK && (forall u :: 1 <= u < 50 ==> closes[u] == LOW) && closes[50] == NEAR
            && (forall u :: 51 <= u < 421 ==> closes[u] == LOW) && (forall u :: 421 <= u < |closes| ==> closes[u] == DEEP)
  {
  }

  function Bare(): Cycle {
    SC.SourceCycle(1, 0, PEAK, [], None)
  }

  function First(): SourceEvent {
    LadderEvent(Bare(), 1, LOW, 30)
  }

  function Second(): SourceEvent {
    LadderEvent(Bare(), 421, DEEP, 100)
  }

  function TinyCycle(): Cycle {
    Bare().(events := [First(), Second()])
  }

  // A close that regains less than 55% of the fall leaves a crash alone.
  lemma Bounces(closes: seq<real>, t: nat, st: SC.Compiler)
    requires Reached(closes, t, st) && t < |closes| && st.robust == Crashed(PEAK, LOW, 30) && st.active.Some?
    requires closes[t] == NEAR && st.runningAth.Some? && NEAR <= st.runningAth.value.1
    ensures Reached(closes, t + 1, st)
  {
    hide SC.Step, SC.PositiveCloses, R.DrawdownFraction, R.RecoveryFraction;
    SC.FoldNext(closes, |closes|, t);
    NoRung(NEAR, PEAK);
    R.HandoffReached(NEAR, PEAK, LOW);
    SC.StepOtherwise(st, t, NEAR, |closes|);
  }

  lemma TinyCycles(m: nat)
    requires m > 1
    ensures SC.SourceCycles(Tiny(m)) == Ok([TinyCycle()])
  {
    hide SC.Fold, SC.Step, SC.PositiveCloses, R.DrawdownFraction, SC.SourceCycles, Tiny;
    TinyCloses(m);
    var closes := Tiny(m);
    Starts(closes);
    var st := Falls(closes, 1, SC.Compiler(Idle(PEAK), Some((0, PEAK)), None, [], 0), PEAK);
    RestsFor(closes, 2, 50, st, LOW);
    Bounces(closes, 50, st);
    RestsFor(closes, 51, 421, st, LOW);
    st := FallsFurther(closes, 421, st, PEAK);
    RestsFor(closes, 422, |closes|, st, DEEP);
    Compiled(closes, st);
    assert st.active.value.events == TinyCycle().events;
    assert SC.Cycles(st) == [TinyCycle()];
  }

  /* ---- Single sessions of the dispatcher ---- */

  // The session a key is journaled on.
  function KeySession(key: TransitionKey): nat {
    match key
    case ApplyKey(source) => source.signal + 1 + ENTRY_DELAY
    case StartKey(_, session) => session
    case FixedExitKey(_, session) => session
    case RearmAfterExitKey(_, session) => session
    case CancelKey(_, session) => session
    case RecoveredKey(_, session) => session
    case RearmKey(_, session) => session
  }

  ghost predicate KeysBefore(db: Db, t: nat) {
    forall i :: 0 <= i < |db.transitions| ==> KeySession(db.transitions[i].key) < t
  }

  lemma FreshKey(db: Db, key: TransitionKey)
    requires KeysBefore(db, KeySession(key))
    ensures FindTransition(db.transitions, key).None?
  {
  }

  ghost predicate Tidy(db: Db, t: nat) {
    && UniqueKeys(db.events) && RisingMaturity(db.events) && ValidState(db.state) && KeysBefore(db, t)
    && forall i :: 0 <= i < |db.events| && Open(db.events[i]) ==> i == |db.events| - 1 && db.events[i].cycleId == CycleOf(db.state)
  }

  // Nothing happens: no execution, no signal, and a close that is not taken for a recovery.
  lemma QuietSession(db: Db, events: seq<SourceEvent>, t: nat, close: real, n: nat)
    requires Tidy(db, t) && t < n && EventsOn(events, t) == [] && close > 0.0
    requires forall row :: row in db.events && Open(row) ==> t < row.maturity < n
    requires match db.state.phase
             case Normal => forall row :: row in db.events ==> !Open(row)
             case WaitD40 => close + TOL < db.state.oldAth.value
             case RecoveryActive => t < db.state.fixedExit.value < n && (close + TOL < db.state.oldAth.value || db.state.recovered)
             case OldAthGuard => !db.state.recovered && close + TOL < db.state.oldAth.value
    ensures Session(db, events, t, close, n) == Run([], Ok(()))
  {
    hide ProcessDue, UniqueKeys, RisingMaturity, KeysBefore, PendingEvents;
    if db.state.phase.Normal? {
      NothingToCancel(db, None);
    } else if db.state.phase.WaitD40? || db.state.phase.RecoveryActive? {
      NothingDue(db, t, n);
    }
  }

  lemma {:induction false} QuietSessions(closes: seq<real>, events: seq<SourceEvent>, db: Db, a: nat, b: nat)
    requires a <= b <= |closes| && ReplayTo(closes, events, a) == Ok(db)
    requires forall t :: a <= t < b ==> Session(db, events, t, closes[t], |closes|) == Run([], Ok(()))
    ensures ReplayTo(closes, events, b) == Ok(db)
    decreases b
  {
    hide Session;
    if a < b {
      QuietSessions(closes, events, db, a, b - 1);
    }
  }

  // A first signal in an idle store.
  function Begun(db: Db, e: SourceEvent): Db {
    Moved(db.(events := db.events + [RowOf(e)]), StartKey(e.cycleId, e.signal), WaitD40, StartSourceCycle, StartUpdates(e),
          StartPayload(KeyOf(e), e.oldAthDate))
  }

  lemma StartSession(db: Db, events: seq<SourceEvent>, e: SourceEvent, t: nat, close: real, n: nat)
    requires Tidy(db, t) && db.state.phase.Normal? && (forall row :: row in db.events ==> !Open(row))
    requires EventsOn(events, t) == [e] && e.signal == t && e.execution == t + 1 && e.kind.EntryOrScale? && e.oldAth > 0.0
    requires R.FrozenTarget(e.target) && e.target > 0 && t + 41 < n && 0.0 < close && close + TOL < e.oldAth
    requires forall i :: 0 <= i < |db.events| ==> db.events[i].signal < t && db.events[i].key.signal < t && db.events[i].maturity < t + 41
    ensures var run := Session(db, events, t, close, n); run.outcome.Ok? && End(db, run.commits) == Begun(db, e)
    ensures Tidy(Begun(db, e), t + 1)
  {
    hide PendingEvents, UniqueKeys, RisingMaturity;
    NothingToCancel(db, None);
    var queued := db.(events := db.events + [RowOf(e)]);
    assert FindEvent(db.events, KeyOf(e)).None?;
    assert Enqueue(db, RowOf(e)) == Ok((queued, RowOf(e)));
    FreshKey(queued, StartKey(e.cycleId, t));
    TransitionMoves(queued, StartKey(e.cycleId, t), WaitD40, StartSourceCycle, StartUpdates(e), StartPayload(KeyOf(e), e.oldAthDate));
    var begun := Begun(db, e);
    assert Ingest(db, e, t, n) == Run([queued] + [begun], Ok(StillPending));
    assert [e][1..] == [];
    assert IngestAll(db, [e], t, n).outcome.Ok? && IngestAll(db, [e], t, n).commits == [queued, begun] + [];
    BegunTidy(db, e, t);
  }

  lemma BegunTidy(db: Db, e: SourceEvent, t: nat)
    requires Tidy(db, t) && db.state.phase.Normal? && (forall row :: row in db.events ==> !Open(row))
    requires e.signal == t && e.execution == t + 1 && e.oldAth > 0.0
    requires forall i :: 0 <= i < |db.events| ==> db.events[i].key.signal < t && db.events[i].maturity < t + 41
    ensures Tidy(Begun(db, e), t + 1)
  {
    var next := Begun(db, e);
    forall i | 0 <= i < |db.events| ensures next.events[i] == db.events[i] && !Open(db.events[i]) {
      assert db.events[i] in db.events;
    }
    KeysMoved(db, next, t);
  }

  lemma KeysMoved(db: Db, next: Db, t: nat)
    requires (KeysBefore(db, t) || KeysBefore(db, t + 1)) && next.transitions != [] && DropLast(next.transitions) == db.transitions
    requires KeySession(Last(next.transitions).key) <= t
    ensures KeysBefore(next, t + 1)
  {
    forall i | 0 <= i < |next.transitions| ensures KeySession(next.transitions[i].key) < t + 1 {
      assert i < |db.transitions| ==> next.transitions[i] == db.transitions[i];
    }
  }

  // The entry of the one open event.
  function Entered(db: Db, session: nat): Db
    requires db.events != []
  {
    var row := Last(db.events);
    Applying(db, row, ApplyFirstEntry, EntryUpdates(row.target, session))
  }

  lemma EntrySession(db: Db, events: seq<SourceEvent>, t: nat, close: real, n: nat)
    requires Tidy(db, t) && db.state.phase.WaitD40? && db.events != [] && EventsOn(events, t) == []
    requires var row := Last(db.events);
             && row.status.Pending? && row.maturity == t && row.key.signal + 41 == t && row.cycleId == CycleOf(db.state)
             && R.FrozenTarget(row.target) && row.target > 0
    requires t + FIXED_HOLD < n && close > 0.0 && close + TOL < db.state.oldAth.value
    ensures var run := Session(db, events, t, close, n); run.outcome.Ok? && End(db, run.commits) == Entered(db, t)
    ensures Tidy(Entered(db, t), t + 1) && (forall r :: r in Entered(db, t).events ==> !Open(r))
  {
    hide PendingEvents, UniqueKeys, RisingMaturity, KeysBefore, ProcessDue, ApplyDue, ValidState;
    var k, row := |db.events| - 1, Last(db.events);
    OnlyLastOpen(db, t);
    FreshKey(db, ApplyKey(row.key));
    StateCycle(db);
    assert DueAt(db, k);
    EntryDoes(db, k, t, n);
    EntryStateValid(db.state, row.target, t);
    EnteredTidy(db, t);
    OneDue(db, k, t, n, Entered(db, t));
    EndAfter(db, Process(db, t, n).commits, []);
  }

  lemma StateCycle(db: Db)
    requires ValidState(db.state) && !db.state.phase.Normal?
    ensures db.state.cycleId == Some(CycleOf(db.state)) && db.state.oldAth.Some?
  {
  }

  lemma OnlyLastOpen(db: Db, t: nat)
    requires Tidy(db, t) && db.events != []
    ensures forall row :: row in db.events && Open(row) ==> row == Last(db.events)
  {
  }

  lemma EnteredTidy(db: Db, t: nat)
    requires Tidy(db, t) && db.state.phase.WaitD40? && db.events != []
    requires var row := Last(db.events);
             && row.maturity == t && row.key.signal + 41 == t && R.FrozenTarget(row.target) && row.target > 0
    ensures Tidy(Entered(db, t), t + 1) && (forall r :: r in Entered(db, t).events ==> !Open(r))
  {
    var next, row := Entered(db, t), Last(db.events);
    UniqueAfterStatus(db.events, row.key, Applied);
    EntryStateValid(db.state, row.target, t);
    forall i | 0 <= i < |next.events| ensures !Open(next.events[i]) {
      if i < |db.events| - 1 {
        assert db.events[i].key != db.events[|db.events| - 1].key;
      }
    }
    KeysMoved(db, next, t);
  }

  // The recovery, seen while the sleeve is on.
  function Seen(db: Db, t: nat): Db {
    Moved(db, RecoveredKey(CycleOf(db.state), t), RecoveryActive, OldAthWhileActive, NO_UPDATES.(recovered := Set(true)), NoPayload)
  }

  lemma SeenSession(db: Db, events: seq<SourceEvent>, t: nat, close: real, n: nat)
    requires Tidy(db, t) && db.state.phase.RecoveryActive? && (forall r :: r in db.events ==> !Open(r)) && EventsOn(events, t) == []
    requires t < db.state.fixedExit.value < n && close > 0.0 && close + TOL >= db.state.oldAth.value && !db.state.recovered
    ensures var run := Session(db, events, t, close, n); run.outcome.Ok? && End(db, run.commits) == Seen(db, t)
    ensures Tidy(Seen(db, t), t + 1)
  {
    hide UniqueKeys, RisingMaturity, ProcessDue;
    NothingDue(db, t, n);
    FreshKey(db, RecoveredKey(CycleOf(db.state), t));
    TransitionMoves(db, RecoveredKey(CycleOf(db.state), t), RecoveryActive, OldAthWhileActive, NO_UPDATES.(recovered := Set(true)), NoPayload);
    KeysMoved(db, Seen(db, t), t);
  }

  // The exit, with the return to NORMAL when the recovery has been seen.
  function Left(db: Db, t: nat): Db {
    var id := CycleOf(db.state);
    var exited := Moved(db, FixedExitKey(id, t), OldAthGuard, H378FixedExit, EXIT_UPDATES, NoPayload);
    if db.state.recovered then Moved(exited, RearmAfterExitKey(id, t), Normal, RearmAfterFixedExit, CLEAR_CYCLE, NoPayload) else exited
  }

  lemma ExitSessionDoes(db: Db, events: seq<SourceEvent>, t: nat, close: real, n: nat)
    requires Tidy(db, t) && db.state.phase.RecoveryActive? && (forall r :: r in db.events ==> !Open(r)) && EventsOn(events, t) == []
    requires db.state.fixedExit == Some(t) && t < n && close > 0.0 && (db.state.recovered || close + TOL < db.state.oldAth.value)
    ensures var run := Session(db, events, t, close, n); run.outcome.Ok? && End(db, run.commits) == Left(db, t)
    ensures Tidy(Left(db, t), t + 1)
  {
    hide UniqueKeys, RisingMaturity, ProcessExit;
    var id := CycleOf(db.state);
    NothingToCancel(db, db.state.cycleId);
    FreshKey(db, FixedExitKey(id, t));
    FreshKey(db, RearmAfterExitKey(id, t));
    ExitDoes(db, t, n);
    var exited := Moved(db, FixedExitKey(id, t), OldAthGuard, H378FixedExit, EXIT_UPDATES, NoPayload);
    KeysMoved(db, exited, t);
    if db.state.recovered {
      KeysMoved(exited, Left(db, t), t);
    }
    EndAfter(db, Process(db, t, n).commits, []);
  }

  /* ---- The replay ---- */

  function Events(): seq<SourceEvent> {
    [First(), Second()]
  }

  lemma EventsOnSession(t: nat)
    ensures EventsOn(Events(), t) == if t == 1 then [First()] else if t == 421 then [Second()] else []
  {
    assert DropLast(Events()) == [First()] && DropLast([First()]) == [];
    assert EventsOn([First()], t) == if t == 1 then [First()] else [];
  }

  lemma NextRow(closes: seq<real>, events: seq<SourceEvent>, t: nat, db: Db, next: Db)
    requires t < |closes| && ReplayTo(closes, events, t) == Ok(db)
    requires var run := Session(db, events, t, closes[t], |closes|); run.outcome.Ok? && End(db, run.commits) == next
    ensures ReplayTo(closes, events, t + 1) == Ok(next)
  {
    hide Session;
  }

  // From an idle store, one signal leads to an entry 41 sessions later and an exit after 378 more.
  ghost predicate IdleStore(db: Db, t: nat) {
    && Tidy(db, t) && db.state.phase.Normal? && (forall row :: row in db.events ==> !Open(row))
    && forall i :: 0 <= i < |db.events| ==> db.events[i].signal < t && db.events[i].key.signal < t && db.events[i].maturity < t + 41
  }

  lemma UntilEntry(closes: seq<real>, events: seq<SourceEvent>, db: Db, e: SourceEvent, t: nat) returns (waiting: Db, entered: Db)
    requires t + 41 + FIXED_HOLD < |closes| && IdleStore(db, t) && ReplayTo(closes, events, t) == Ok(db)
    requires EventsOn(events, t) == [e] && (forall u: nat :: t < u < t + 42 ==> EventsOn(events, u) == [])
    requires e.signal == t && e.execution == t + 1 && e.kind.EntryOrScale? && e.oldAth > 0.0 && R.FrozenTarget(e.target) && e.target > 0
    requires forall u :: t <= u < t + 42 ==> 0.0 < closes[u] && closes[u] + TOL < e.oldAth
    ensures waiting == Begun(db, e) && waiting.events != [] && entered == Entered(waiting, t + 41)
    ensures ReplayTo(closes, events, t + 42) == Ok(entered)
    ensures Tidy(entered, t + 42) && (forall r :: r in entered.events ==> !Open(r)) && entered.state.phase.RecoveryActive?
    ensures entered.state.fixedExit == Some(t + 41 + FIXED_HOLD) && entered.state.oldAth == Some(e.oldAth)
    ensures entered.state.recovered == false && entered.state.cycleId == Some(e.cycleId) && entered.state.target == e.target
  {
    hide Session, ReplayTo, Tidy, EventsOn;
    var n := |closes|;
    StartSession(db, events, e, t, closes[t], n);
    waiting := Begun(db, e);
    NextRow(closes, events, t, db, waiting);
    forall u | t + 1 <= u < t + 41 ensures Session(waiting, events, u, closes[u], n) == Run([], Ok(())) {
      TidyLater(waiting, t + 1, u);
      WaitingRows(db, e, t);
      QuietSession(waiting, events, u, closes[u], n);
    }
    QuietSessions(closes, events, waiting, t + 1, t + 41);
    TidyLater(waiting, t + 1, t + 41);
    WaitingRows(db, e, t);
    EntrySession(waiting, events, t + 41, closes[t + 41], n);
    entered := Entered(waiting, t + 41);
    NextRow(closes, events, t + 41, waiting, entered);
  }

  lemma TidyLater(db: Db, t: nat, u: nat)
    requires Tidy(db, t) && t <= u
    ensures Tidy(db, u)
  {
  }

  lemma WaitingRows(db: Db, e: SourceEvent, t: nat)
    requires forall row :: row in db.events ==> !Open(row)
    requires e.signal == t && e.execution == t + 1
    ensures var waiting := Begun(db, e);
            && waiting.events == db.events + [RowOf(e)] && Last(waiting.events) == RowOf(e)
            && forall row :: row in waiting.events && Open(row) ==> row.maturity == t + 41
  {
  }

  lemma QuietWhileOn(closes: seq<real>, events: seq<SourceEvent>, db: Db, a: nat, b: nat)
    requires Tidy(db, a) && db.state.phase.RecoveryActive? && (forall r :: r in db.events ==> !Open(r)) && a <= b <= |closes|
    requires ReplayTo(closes, events, a) == Ok(db) && b <= db.state.fixedExit.value < |closes|
    requires forall u :: a <= u < b ==> EventsOn(events, u) == [] && closes[u] > 0.0 && (closes[u] + TOL < db.state.oldAth.value || db.state.recovered)
    ensures ReplayTo(closes, events, b) == Ok(db) && Tidy(db, b)
  {
    hide Session, ReplayTo, Tidy, EventsOn;
    forall u | a <= u < b ensures Session(db, events, u, closes[u], |closes|) == Run([], Ok(())) {
      TidyLater(db, a, u);
      QuietSession(db, events, u, closes[u], |closes|);
    }
    QuietSessions(closes, events, db, a, b);
    TidyLater(db, a, b);
  }

  // The first life of the cycle: entered at 42, recovered in the dispatcher's eyes at 50, left at 420.
  lemma FirstLife(m: nat) returns (idle: Db)
    requires m >= 420
    ensures ReplayTo(Tiny(m), Events(), 421) == Ok(idle) && IdleStore(idle, 421)
  {
    hide Session, ReplayTo, Tidy, EventsOn, Tiny, Events, IdleStore, First, Second;
    TinyCloses(m);
    var closes, events, start := Tiny(m), Events(), InitialDb(0.0);
    EventsOnSessions();
    StartIdle(events, closes);
    FirstFacts();
    var waiting, entered := UntilEntry(closes, events, start, First(), 1);
    QuietWhileOn(closes, events, entered, 43, 50);
    SeenSession(entered, events, 50, closes[50], |closes|);
    var seen := Seen(entered, 50);
    NextRow(closes, events, 50, entered, seen);
    QuietWhileOn(closes, events, seen, 51, 420);
    ExitSessionDoes(seen, events, 420, closes[420], |closes|);
    idle := CrashFree(seen, entered, waiting);
    NextRow(closes, events, 420, seen, idle);
  }

  lemma EventsOnSessions()
    ensures forall t :: EventsOn(Events(), t) == if t == 1 then [First()] else if t == 421 then [Second()] else []
  {
    hide EventsOn;
    forall t ensures EventsOn(Events(), t) == if t == 1 then [First()] else if t == 421 then [Second()] else [] {
      EventsOnSession(t);
    }
  }

  lemma FirstFacts()
    ensures First().signal == 1 && First().execution == 2 && First().kind.EntryOrScale? && First().oldAth == PEAK && First().target == 30
    ensures Second().signal == 421 && Second().execution == 422 && Second().kind.EntryOrScale? && Second().oldAth == PEAK && Second().target == 100
    ensures First().cycleId == 1 && Second().cycleId == 1
  {
  }

  lemma StartIdle(events: seq<SourceEvent>, closes: seq<real>)
    requires |closes| > 1 && closes[0] > 0.0 && EventsOn(events, 0) == []
    ensures ReplayTo(closes, events, 1) == Ok(InitialDb(0.0)) && IdleStore(InitialDb(0.0), 1)
  {
    hide Session;
    QuietSession(InitialDb(0.0), events, 0, closes[0], |closes|);
    assert ReplayTo(closes, events, 0) == Ok(InitialDb(0.0));
  }

  // After the exit the store is idle again.
  lemma CrashFree(seen: Db, entered: Db, waiting: Db) returns (idle: Db)
    requires waiting == Begun(InitialDb(0.0), First()) && entered == Entered(waiting, 42) && seen == Seen(entered, 50)
    requires Tidy(Left(seen, 420), 421) && (forall r :: r in seen.events ==> !Open(r))
    ensures idle == Left(seen, 420) && IdleStore(idle, 421)
  {
    idle := Left(seen, 420);
    FirstFacts();
    assert waiting.events == [RowOf(First())];
  }

  // The second life: entered at 462 at 100%, left at 840, and no recovery since.
  lemma SecondLife(m: nat, idle: Db) returns (last: Db)
    requires m >= 420 && ReplayTo(Tiny(m), Events(), 421) == Ok(idle) && IdleStore(idle, 421)
    ensures |Tiny(m)| == 421 + m && ReplayTo(Tiny(m), Events(), 421 + m) == Ok(last) && ValidState(last.state)
    ensures Trade(1, 462, 100) in TradesIn(last.transitions)
  {
    hide Session, ReplayTo, Tidy, EventsOn, Tiny, Events, IdleStore, First, Second;
    TinyCloses(m);
    var closes, events := Tiny(m), Events();
    EventsOnSessions();
    FirstFacts();
    var waiting, entered := UntilEntry(closes, events, idle, Second(), 421);
    QuietWhileOn(closes, events, entered, 463, 840);
    ExitSessionDoes(entered, events, 840, closes[840], |closes|);
    last := Left(entered, 840);
    NextRow(closes, events, 840, entered, last);
    forall u | 841 <= u < |closes| ensures Session(last, events, u, closes[u], |closes|) == Run([], Ok(())) {
      TidyLater(last, 841, u);
      QuietSession(last, events, u, closes[u], |closes|);
    }
    QuietSessions(closes, events, last, 841, |closes|);
    TidyValid(last, 841);
    EntryTrade(idle, waiting, entered, last);
  }

  lemma TidyValid(db: Db, t: nat)
    requires Tidy(db, t)
    ensures ValidState(db.state)
  {
  }

  lemma EntryTrade(idle: Db, waiting: Db, entered: Db, last: Db)
    requires waiting == Begun(idle, Second()) && entered == Entered(waiting, 462) && last == Left(entered, 840)
    requires !entered.state.recovered
    ensures Trade(1, 462, 100) in TradesIn(last.transitions)
  {
    FirstFacts();
    assert Last(waiting.events) == RowOf(Second());
    assert DropLast(last.transitions) == entered.transitions;
    var rows := entered.transitions;
    assert TradesIn(rows) == TradesIn(DropLast(rows)) + [Trade(1, 462, 100)];
  }

  /* ---- The schedule ---- */

  lemma TinySchedule(m: nat)
    requires m >= 420
    ensures SC.SourceCycles(Tiny(m)) == Ok([TinyCycle()])
    ensures Schedule(Tiny(m)).Ok? && Trade(1, 462, 100) !in TradesOf(Schedule(Tiny(m)).value)
    ensures SameCuts([TinyCycle()], Tiny(m))
  {
    hide SC.SourceCycles, Schedule, Tiny, First, Second;
    TinyCloses(m);
    TinyCycles(m);
    var closes, c := Tiny(m), TinyCycle();
    FirstFacts();
    assert SC.Ladder(c) == [First(), Second()] && SC.First(c) == 1;
    ScheduleMeaning(closes);
    assert CalendarReaches([c][0], BatchRecovery([c][0], |closes|), |closes|);
    NoSuchTrade(c);
    assert !Scheduled([c], BatchRecoveries([c], |closes|), Trade(1, 462, 100));
  }

  lemma NoSuchTrade(c: Cycle)
    requires SC.Ladder(c) == [First(), Second()] && SC.First(c) == 1
    ensures !CycleTrade(c, Trade(1, 462, 100))
  {
    FirstFacts();
  }

  // Both sides return and cancel the same cycles, and still they trade differently.
  lemma TinyPricesDisagree(m: nat)
    requires m >= 420
    ensures var closes := Tiny(m);
            && Schedule(closes).Ok? && Replay(closes).Ok?
            && SC.SourceCycles(closes).Ok? && SameCuts(SC.SourceCycles(closes).value, closes)
            && !SignalsPrecedeRecovery(SC.SourceCycles(closes).value, closes)
            && TradesIn(Replay(closes).value.transitions) != TradesOf(Schedule(closes).value)
  {
    hide SC.SourceCycles, Schedule, Tiny, ReplayTo, SameCuts, IdleStore;
    TinySchedule(m);
    var closes := Tiny(m);
    assert AllEvents([TinyCycle()]) == Events() by {
      assert AllEvents([]) == [] && DropLast([TinyCycle()]) == [];
    }
    var idle := FirstLife(m);
    var last := SecondLife(m, idle);
    assert Replay(closes) == Ok(last);
    if SignalsPrecedeRecovery([TinyCycle()], closes) {
      LateSecond(m);
    }
  }

  lemma LateSecond(m: nat)
    requires m >= 420
    ensures Recovery(TinyCycle(), Tiny(m)) == 50 && Last(SC.Ladder(TinyCycle())).signal == 421
  {
    TinyCloses(m);
    FirstFacts();
    assert SC.Ladder(TinyCycle()) == [First(), Second()];
    hide Tiny;
  }
}
