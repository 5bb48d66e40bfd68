// The durable state as a closed form of the time line.  Sessions before `started` have
// had their signals ingested, sessions before `executed` have been processed, and closes
// before `observed` have been observed; between rows all three are the same number.
module ClosedForm {
  import opened Common
  import opened RecoveryTables
  import opened Dispatcher
  import opened FinalSchedule
  import opened Timeline
  import SC = SourceCompiler

  // The state row without its revision and reserve.
  datatype Core = Core(
    phase: Phase, cycleId: Option<nat>, oldAth: Option<real>, target: int,
    firstEntry: Option<nat>, fixedExit: Option<nat>, recovered: bool)

  const IDLE := Core(Normal, None, None, 0, None, None, false)

  function CoreOfState(s: RecoveryState): Core {
    Core(s.phase, s.cycleId, s.oldAth, s.target, s.firstEntry, s.fixedExit, s.recovered)
  }

  // The cycle ends before its first entry.
  predicate CutShort(c: Cycle, closes: seq<real>) {
    RecoversFirst(c, Recovery(c, closes))
  }

  // The target of the last ladder event that has matured.
  function TargetBy(ladder: seq<SourceEvent>, executed: nat): int {
    if ladder == [] then 0
    else if Maturity(Last(ladder)) < executed then Last(ladder).target
    else TargetBy(DropLast(ladder), executed)
  }

  function CycleCore(c: Cycle, closes: seq<real>, executed: nat, observed: nat): Core {
    var back := Recovery(c, closes) < observed;
    if CutShort(c, closes) then
      if back then IDLE else Core(WaitD40, Some(c.cycleId), Some(c.oldAth), 0, None, None, false)
    else if executed <= EntrySession(c) then
      Core(WaitD40, Some(c.cycleId), Some(c.oldAth), 0, None, None, false)
    else if executed <= ExitSession(c) then
      Core(RecoveryActive, Some(c.cycleId), Some(c.oldAth), TargetBy(SC.Ladder(c), executed),
           Some(EntrySession(c)), Some(ExitSession(c)), back)
    else if back then IDLE
    else Core(OldAthGuard, Some(c.cycleId), Some(c.oldAth), 0, Some(EntrySession(c)), Some(ExitSession(c)), false)
  }

  // How many cycles have signalled before this session.
  function Started(cycles: seq<Cycle>, started: nat): (i: nat)
    ensures i <= |cycles|
  {
    if cycles == [] then 0
    else if SC.First(Last(cycles)) < started then |cycles|
    else Started(DropLast(cycles), started)
  }

  function CoreAt(cycles: seq<Cycle>, closes: seq<real>, started: nat, executed: nat, observed: nat): Core {
    var i := Started(cycles, started);
    if i == 0 then IDLE else CycleCore(cycles[i - 1], closes, executed, observed)
  }

  function StatusOf(c: Cycle, closes: seq<real>, e: SourceEvent, executed: nat, observed: nat): EventStatus {
    if CutShort(c, closes) then
      if Recovery(c, closes) < observed then Cancelled else Pending
    else if Maturity(e) >= ExitSession(c) then Cancelled
    else if Maturity(e) < executed then Applied
    else Pending
  }

  ghost predicate RowIs(cycles: seq<Cycle>, closes: seq<real>, row: EventRow, e: SourceEvent, executed: nat, observed: nat) {
    && 1 <= e.cycleId <= |cycles|
    && row == RowOf(e).(status := StatusOf(cycles[e.cycleId - 1], closes, e, executed, observed))
  }

  // The event table holds exactly the ladder events signalled so far, in order.
  ghost predicate TableIs(
    cycles: seq<Cycle>, closes: seq<real>, rows: seq<EventRow>, started: nat, executed: nat, observed: nat)
  {
    var events := LadderEvents(cycles);
    && |rows| <= |events|
    && (forall k :: 0 <= k < |rows| ==> events[k].signal < started && RowIs(cycles, closes, rows[k], events[k], executed, observed))
    && (forall k :: |rows| <= k < |events| ==> events[k].signal >= started)
  }

  /* ---- When the dispatcher goes on ---- */

  // A ladder signal of cycle i on session t is taken: it matures on the calendar, before its
  // own cycle has exited and after every earlier uncut cycle has.
  ghost predicate Accepted(cycles: seq<Cycle>, closes: seq<real>, i: nat, t: nat)
    requires i < |cycles|
  {
    && t + 1 + ENTRY_DELAY < |closes|
    && (!CutShort(cycles[i], closes) ==> t < ExitSession(cycles[i]))
    && (forall k :: 0 <= k < i ==> CutShort(cycles[k], closes) || ExitSession(cycles[k]) <= t)
  }

  // No source signal of this session is refused.
  ghost predicate SignalOk(cycles: seq<Cycle>, closes: seq<real>, t: nat) {
    forall i, j :: 0 <= i < |cycles| && 0 <= j < |SC.Ladder(cycles[i])| && SC.Ladder(cycles[i])[j].signal == t ==>
      Accepted(cycles, closes, i, t)
  }

  // A first entry of this session finds its exit on the calendar.
  ghost predicate EntryOk(cycles: seq<Cycle>, closes: seq<real>, t: nat) {
    forall i :: 0 <= i < |cycles| && !CutShort(cycles[i], closes) && EntrySession(cycles[i]) == t ==>
      ExitSession(cycles[i]) < |closes|
  }

  ghost predicate OkBefore(cycles: seq<Cycle>, closes: seq<real>, t: nat) {
    forall u :: 0 <= u < t ==> SignalOk(cycles, closes, u) && EntryOk(cycles, closes, u)
  }

  /* ---- What the journal says was done ---- */

  function TradesIn(rows: seq<TransitionRow>): seq<Trade> {
    if rows == [] then []
    else
      TradesIn(DropLast(rows)) +
      match Last(rows).key
      case ApplyKey(source) =>
        [Trade(source.cycleId, if Last(rows).payload.ApplyPayload? then Last(rows).payload.maturity else 0,
               FieldOr(Last(rows).updates.target, 0))]
      case FixedExitKey(cycleId, session) => [Trade(cycleId, session, FieldOr(Last(rows).updates.target, 0))]
      case _ => []
  }

  // One return to NORMAL: which cycle, and on which session.
  datatype Return = Return(cycleId: nat, session: nat)

  function ReturnsIn(rows: seq<TransitionRow>): seq<Return> {
    if rows == [] then []
    else
      ReturnsIn(DropLast(rows)) +
      match Last(rows).key
      case RearmAfterExitKey(cycleId, session) => [Return(cycleId, session)]
      case CancelKey(cycleId, session) => [Return(cycleId, session)]
      case RearmKey(cycleId, session) => [Return(cycleId, session)]
      case _ => []
  }

  function Later(a: nat, b: nat): nat {
    if a >= b then a else b
  }

  // A cancelled cycle returns when its old ATH does; any other at the later of exit and recovery.
  function ReturnSession(c: Cycle, closes: seq<real>): nat {
    if CutShort(c, closes) then Recovery(c, closes) else Later(ExitSession(c), Recovery(c, closes))
  }

  ghost predicate Returned(cycles: seq<Cycle>, closes: seq<real>, x: Return, executed: nat, observed: nat) {
    && 1 <= x.cycleId <= |cycles|
    && x.session == ReturnSession(cycles[x.cycleId - 1], closes)
    && Recovery(cycles[x.cycleId - 1], closes) < observed
    && (CutShort(cycles[x.cycleId - 1], closes) || ExitSession(cycles[x.cycleId - 1]) < executed)
  }

  // Journal keys carry the session they were written on, and within a session the order
  // of the operations: executions, the rearm after an exit, the start, the close.
  function KeyRank(key: TransitionKey): nat {
    match key
    case ApplyKey(source) => 4 * (source.signal + 1 + ENTRY_DELAY)
    case FixedExitKey(_, session) => 4 * session
    case RearmAfterExitKey(_, session) => 4 * session + 1
    case StartKey(_, session) => 4 * session + 2
    case CancelKey(_, session) => 4 * session + 3
    case RecoveredKey(_, session) => 4 * session + 3
    case RearmKey(_, session) => 4 * session + 3
  }

  ghost predicate KeysBelow(rows: seq<TransitionRow>, rank: nat) {
    forall i :: 0 <= i < |rows| ==> KeyRank(rows[i].key) < rank
  }

  ghost predicate TradesAre(cycles: seq<Cycle>, closes: seq<real>, trades: seq<Trade>, executed: nat) {
    && Chronological(trades)
    && (forall k :: 0 <= k < |trades| ==> trades[k].session < executed)
    && (forall x :: x in trades <==> Scheduled(cycles, Recoveries(cycles, closes), x) && x.session < executed)
  }

  ghost predicate ReturnsAre(cycles: seq<Cycle>, closes: seq<real>, made: seq<Return>, executed: nat, observed: nat) {
    && (forall i, j :: 0 <= i < j < |made| ==> made[i].cycleId < made[j].cycleId)
    && (forall x :: x in made <==> Returned(cycles, closes, x, executed, observed))
  }

  ghost predicate StoreIs(
    cycles: seq<Cycle>, closes: seq<real>, db: Db, started: nat, executed: nat, observed: nat, rank: nat)
  {
    && db.state.revision >= 1 && db.state.reserve == 0.0
    && CoreOfState(db.state) == CoreAt(cycles, closes, started, executed, observed)
    && TableIs(cycles, closes, db.events, started, executed, observed)
    && KeysBelow(db.transitions, rank)
    && TradesAre(cycles, closes, TradesIn(db.transitions), executed)
    && ReturnsAre(cycles, closes, ReturnsIn(db.transitions), executed, observed)
  }

  /* ---- Which cycle is current ---- */

  lemma {:induction false} StartedBounds(cycles: seq<Cycle>, closes: seq<real>, started: nat)
    requires OnTimeline(cycles, closes)
    ensures forall k :: 0 <= k < Started(cycles, started) ==> SC.First(cycles[k]) < started
    ensures forall k :: Started(cycles, started) <= k < |cycles| ==> SC.First(cycles[k]) >= started
    ensures forall j, k :: 0 <= j < k < |cycles| ==> SC.First(cycles[j]) < SC.First(cycles[k])
  {
    hide CycleFacts, Recovery;
    if cycles != [] {
      var front := DropLast(cycles);
      OnTimelineFront(cycles, closes);
      StartedBounds(front, closes, started);
      forall k | 0 <= k < |front| ensures SC.First(cycles[k]) < SC.First(Last(cycles)) {
        FirstBeforeRecovery(cycles, closes, k);
        assert cycles[k] == front[k];
      }
      forall j, k | 0 <= j < k < |cycles| ensures SC.First(cycles[j]) < SC.First(cycles[k]) {
        if k < |front| {
          assert front[j] == cycles[j] && front[k] == cycles[k];
        } else {
          assert cycles[k] == Last(cycles);
        }
      }
    }
  }

  lemma FirstBeforeRecovery(cycles: seq<Cycle>, closes: seq<real>, i: nat)
    requires OnTimeline(cycles, closes) && i < |cycles|
    ensures SC.First(cycles[i]) < Recovery(cycles[i], closes)
  {
    FactsAt(cycles, closes, i);
    LadderBefore(cycles[i], closes, 0);
  }

  // A cycle before the current one is over: cut short and back, or past its exit and back.
  lemma EarlierCycleOver(cycles: seq<Cycle>, closes: seq<real>, k: nat, i: nat, t: nat)
    requires OnTimeline(cycles, closes) && OkBefore(cycles, closes, t)
    requires k < i < |cycles| && SC.First(cycles[i]) < t
    ensures Recovery(cycles[k], closes) < SC.First(cycles[i])
    ensures CutShort(cycles[k], closes) || ExitSession(cycles[k]) <= SC.First(cycles[i])
  {
    hide CycleFacts, Recovery, CutShort, EntryOk;
    FactsAt(cycles, closes, i);
    FirstOfLadder(cycles[i], closes);
    var u := SC.First(cycles[i]);
    assert SignalOk(cycles, closes, u);
    assert SC.Ladder(cycles[i])[0].signal == u;
  }

  lemma FirstOfLadder(c: Cycle, closes: seq<real>)
    requires CycleFacts(c, closes, c.cycleId)
    ensures |SC.Ladder(c)| > 0 && SC.Ladder(c)[0].signal == SC.First(c) < |closes| && c.oldAth > 0.0
  {
  }

  // Signals already ingested mature on the calendar, and before their cycle's exit is reached.
  lemma SeenSignal(cycles: seq<Cycle>, closes: seq<real>, i: nat, j: nat, t: nat)
    requires OnTimeline(cycles, closes) && OkBefore(cycles, closes, t)
    requires i < |cycles| && j < |SC.Ladder(cycles[i])| && SC.Ladder(cycles[i])[j].signal < t
    ensures Maturity(SC.Ladder(cycles[i])[j]) < |closes|
    ensures !CutShort(cycles[i], closes) ==> SC.Ladder(cycles[i])[j].signal < ExitSession(cycles[i])
  {
    hide CycleFacts, Recovery, CutShort, EntryOk;
    assert SignalOk(cycles, closes, SC.Ladder(cycles[i])[j].signal);
  }

  // A scheduled trade of session t belongs to the current, uncut cycle.
  lemma TradeIsCurrent(cycles: seq<Cycle>, closes: seq<real>, t: nat, x: Trade)
    requires OnTimeline(cycles, closes) && OkBefore(cycles, closes, t)
    requires Scheduled(cycles, Recoveries(cycles, closes), x) && x.session == t
    ensures var i := Started(cycles, t);
            i > 0 && !CutShort(cycles[i - 1], closes) && CycleTrade(cycles[i - 1], x)
  {
    hide CycleFacts, Recovery, LadderFacts, OkBefore, CycleTrade, OnTimeline;
    StartedBounds(cycles, closes, t);
    var k := TradingCycle(cycles, closes, x);
    FactsAt(cycles, closes, k);
    TradeWindow(cycles[k], closes, x);
    var i := Started(cycles, t);
    if k < i - 1 {
      EarlierCycleOver(cycles, closes, k, i - 1, t);
    }
  }

  lemma TradingCycle(cycles: seq<Cycle>, closes: seq<real>, x: Trade) returns (k: nat)
    requires Scheduled(cycles, Recoveries(cycles, closes), x)
    ensures k < |cycles| && !CutShort(cycles[k], closes) && CycleTrade(cycles[k], x)
  {
    hide Recovery, CycleTrade;
    k :| 0 <= k < |cycles| && !RecoversFirst(cycles[k], Recoveries(cycles, closes)[k]) && CycleTrade(cycles[k], x);
  }

  lemma TradeWindow(c: Cycle, closes: seq<real>, x: Trade)
    requires CycleFacts(c, closes, c.cycleId) && CycleTrade(c, x)
    ensures EntrySession(c) <= x.session <= ExitSession(c)
  {
    if x.session != ExitSession(c) {
      var j :| 0 <= j < |SC.Ladder(c)| && Maturity(SC.Ladder(c)[j]) == x.session;
      LadderBefore(c, closes, j);
    }
  }

  lemma CurrentTradeScheduled(cycles: seq<Cycle>, closes: seq<real>, i: nat, x: Trade)
    requires i < |cycles| && !CutShort(cycles[i], closes) && CycleTrade(cycles[i], x)
    ensures Scheduled(cycles, Recoveries(cycles, closes), x)
  {
    hide CycleTrade, Recovery;
    assert !RecoversFirst(cycles[i], Recoveries(cycles, closes)[i]);
  }
}
