// src/sp1execution/recovery/durable_dispatcher_v01.py: the online delay line.  Every
// operation is a series of commits on the recovery store; a Run lists them in order,
// so its prefixes are the states a crash can leave behind.
module Dispatcher {
  import opened Common
  import opened RecoveryTables
  import Robust
  import SourceCompiler
  import FinalSchedule

  type SourceEvent = SourceCompiler.SourceEvent

  datatype Run<+T> = Run(commits: seq<Db>, outcome: Result<T, StoreError>)

  // The content of the store after these commits.
  function End(db: Db, commits: seq<Db>): Db {
    if commits == [] then db else Last(commits)
  }

  function After<T>(commits: seq<Db>, run: Run<T>): Run<T> {
    Run(commits + run.commits, run.outcome)
  }

  datatype SourceStatus = IgnoredHandoff | AlreadyRecorded | StillPending | CancelledOutsideH378

  datatype SessionResult = SessionResult(applied: seq<SourceKey>, fixedExit: bool, rearmed: bool)

  datatype CloseStatus =
    | NoActiveCycle | OldAthNotRecovered | CancelledBeforeFirstEntry
    | OldAthRecoveryRecorded | OldAthAlreadyRecorded | RearmedOnOldAth

  function KeyOf(e: SourceEvent): SourceKey {
    SourceKey(e.cycleId, e.signal, e.execution, e.target)
  }

  function RowOf(e: SourceEvent): EventRow {
    EventRow(KeyOf(e), e.cycleId, e.signal, e.execution, e.execution + FinalSchedule.ENTRY_DELAY,
             e.target, Pending, EventPayload(e.oldAthDate, e.oldAth, e.drawdown))
  }

  function StartUpdates(e: SourceEvent): Updates {
    Updates(Set(Some(e.cycleId)), Set(Some(e.oldAth)), Set(0), Set(None), Set(None), Set(false))
  }

  function CycleOf(s: RecoveryState): nat {
    if s.cycleId.Some? then s.cycleId.value else 0
  }

  /* ---- ingest_source_event ---- */

  // The last step: an event maturing at or after the exit of an active cycle is dropped.
  function Settle(db: Db, e: SourceEvent, sessionCount: nat): Run<SourceStatus> {
    if !db.state.phase.RecoveryActive? then Run([], Ok(StillPending))
    else if db.state.fixedExit.None? || db.state.fixedExit.value >= sessionCount then Run([], Err(SessionAbsent))
    else if RowOf(e).maturity >= db.state.fixedExit.value then
      match SetStatus(db, KeyOf(e), Cancelled)
      case Err(error) => Run([], Err(error))
      case Ok(cancelled) => Run([cancelled], Ok(CancelledOutsideH378))
    else Run([], Ok(StillPending))
  }

  function JoinCycle(db: Db, e: SourceEvent, sessionCount: nat): Run<SourceStatus> {
    var s := db.state;
    match s.phase
    case Normal =>
      (match Transition(db, StartKey(e.cycleId, e.signal), WaitD40, StartSourceCycle, StartUpdates(e),
                       StartPayload(KeyOf(e), e.oldAthDate))
      case Err(error) => Run([], Err(error))
      case Ok(started) => After([started], Settle(started, e, sessionCount)))
    case OldAthGuard => Run([], Err(BeforeGuardRelease))
    case _ =>
      if s.cycleId != Some(e.cycleId) then Run([], Err(CycleOverlap))
      else if s.oldAth.None? || Abs(s.oldAth.value - e.oldAth) > TOL then Run([], Err(OldAthDiffers))
      else Settle(db, e, sessionCount)
  }

  function Ingest(db: Db, e: SourceEvent, observed: nat, sessionCount: nat): Run<SourceStatus> {
    if observed != e.signal then Run([], Err(NotOnSignalSession))
    else if e.signal >= sessionCount then Run([], Err(SessionAbsent))
    else if e.signal + 1 >= sessionCount then Run([], Err(CalendarEnds))
    else if e.execution != e.signal + 1 then Run([], Err(NotTPlusOne))
    else if e.kind.HandoffEvent? then Run([], Ok(IgnoredHandoff))
    else if !Robust.FrozenTarget(e.target) || e.target <= 0 then Run([], Err(NonFrozenTarget))
    else if e.execution + FinalSchedule.ENTRY_DELAY >= sessionCount then Run([], Err(CalendarEnds))
    else
      match Enqueue(db, RowOf(e))
      case Err(error) => Run([], Err(error))
      case Ok((queued, row)) =>
        if row.status.Applied? || row.status.Cancelled? then Run([queued], Ok(AlreadyRecorded))
        else After([queued], JoinCycle(queued, e, sessionCount))
  }

  /* ---- process_execution_session ---- */

  // _cancel_open_events over the rows read at its start.
  function CancelRows(db: Db, rows: seq<EventRow>, bound: Option<nat>, sessionCount: nat): Run<()>
    decreases |rows|
  {
    if rows == [] then Run([], Ok(()))
    else if bound.Some? && rows[0].maturity >= sessionCount then Run([], Err(SessionAbsent))
    else if bound.Some? && rows[0].maturity < bound.value then CancelRows(db, rows[1..], bound, sessionCount)
    else
      match SetStatus(db, rows[0].key, Cancelled)
      case Err(error) => Run([], Err(error))
      case Ok(next) => After([next], CancelRows(next, rows[1..], bound, sessionCount))
  }

  function CancelOpen(db: Db, cycleId: nat, bound: Option<nat>, sessionCount: nat): Run<()> {
    if bound.Some? && bound.value >= sessionCount then Run([], Err(SessionAbsent))
    else CancelRows(db, PendingEvents(db, Some(cycleId)), bound, sessionCount)
  }

  function EntryUpdates(target: int, session: nat): Updates {
    NO_UPDATES.(target := Set(target), firstEntry := Set(Some(session)),
                fixedExit := Set(Some(session + FinalSchedule.FIXED_HOLD)))
  }

  function FinishDue(db: Db, key: SourceKey): Run<()> {
    match SetStatus(db, key, Applied)
    case Err(error) => Run([], Err(error))
    case Ok(done) => Run([done], Ok(()))
  }

  // The economic transition of a due event that has not been journaled yet.
  function ApplyMatured(db: Db, row: EventRow, session: nat, sessionCount: nat): Run<()> {
    var s := db.state;
    var payload := ApplyPayload(row.key, row.maturity);
    if s.cycleId != Some(row.cycleId) then Run([], Err(DueCycleMismatch))
    else if !Robust.FrozenTarget(row.target) then Run([], Err(NonFrozenTarget))
    else if s.phase.WaitD40? then
      if session + FinalSchedule.FIXED_HOLD >= sessionCount then Run([], Err(CalendarEnds))
      else
        match Transition(db, ApplyKey(row.key), RecoveryActive, ApplyFirstEntry, EntryUpdates(row.target, session), payload)
        case Err(error) => Run([], Err(error))
        case Ok(entered) =>
          var cut := CancelOpen(entered, row.cycleId, Some(session + FinalSchedule.FIXED_HOLD), sessionCount);
          if cut.outcome.Err? then After([entered], cut)
          else After([entered] + cut.commits, FinishDue(End(entered, cut.commits), row.key))
    else if s.phase.RecoveryActive? then
      if s.fixedExit.None? || s.fixedExit.value >= sessionCount then Run([], Err(SessionAbsent))
      else if session >= s.fixedExit.value then Run([], Err(ScaleAfterExit))
      else if row.target <= s.target then Run([], Err(ScaleMustIncrease))
      else
        match Transition(db, ApplyKey(row.key), RecoveryActive, ApplyScaleUp, NO_UPDATES.(target := Set(row.target)), payload)
        case Err(error) => Run([], Err(error))
        case Ok(scaled) => After([scaled], FinishDue(scaled, row.key))
    else Run([], Err(NotApplicable))
  }

  // _resume_transition_then_apply when the journal already has the transition.
  function ResumeOrApply(db: Db, row: EventRow, session: nat, sessionCount: nat): Run<()> {
    match FindTransition(db.transitions, ApplyKey(row.key))
    case Some(recorded) =>
      (match Transition(db, recorded.key, recorded.toPhase, recorded.reason, recorded.updates, recorded.payload)
      case Err(error) => Run([], Err(error))
      case Ok(same) => After([same], FinishDue(same, row.key)))
    case None => ApplyMatured(db, row, session, sessionCount)
  }

  function ApplyDue(db: Db, row: EventRow, session: nat, sessionCount: nat): Run<()> {
    if row.status.Pending? then
      match SetStatus(db, row.key, Matured)
      case Err(error) => Run([], Err(error))
      case Ok(matured) => After([matured], ResumeOrApply(matured, row, session, sessionCount))
    else if row.status.Matured? then ResumeOrApply(db, row, session, sessionCount)
    else Run([], Err(InvalidDueStatus))
  }

  function ApplyAll(db: Db, due: seq<EventRow>, session: nat, sessionCount: nat): Run<()>
    decreases |due|
  {
    if due == [] then Run([], Ok(()))
    else
      var head := ApplyDue(db, due[0], session, sessionCount);
      if head.outcome.Err? then head
      else After(head.commits, ApplyAll(End(db, head.commits), due[1..], session, sessionCount))
  }

  // The rows maturing on this session; a missed or unknown session fails closed.
  function DueRows(rows: seq<EventRow>, session: nat, sessionCount: nat): Result<seq<EventRow>, StoreError> {
    if rows == [] then Ok([])
    else
      var before :- DueRows(DropLast(rows), session, sessionCount);
      var row := Last(rows);
      if row.maturity >= sessionCount then Err(SessionAbsent)
      else if row.maturity < session then Err(MaturityMissed)
      else Ok(before + if row.maturity == session then [row] else [])
  }

  function Keys(rows: seq<EventRow>): seq<SourceKey> {
    seq(|rows|, i requires 0 <= i < |rows| => rows[i].key)
  }

  function ProcessDue(db: Db, session: nat, sessionCount: nat): Run<SessionResult> {
    match DueRows(PendingEvents(db, Some(CycleOf(db.state))), session, sessionCount)
    case Err(error) => Run([], Err(error))
    case Ok(due) =>
      var applied := ApplyAll(db, due, session, sessionCount);
      match applied.outcome
      case Err(error) => Run(applied.commits, Err(error))
      case Ok(_) =>
        if !ValidState(End(db, applied.commits).state) then Run(applied.commits, Err(InvalidState))
        else Run(applied.commits, Ok(SessionResult(Keys(due), false, false)))
  }

  // _rearm_after_fixed_exit_if_ready
  function RearmIfReady(db: Db): Run<bool> {
    var s := db.state;
    if !s.phase.OldAthGuard? || !s.recovered then Run([], Ok(false))
    else
      match Transition(db, RearmAfterExitKey(CycleOf(s), if s.fixedExit.Some? then s.fixedExit.value else 0), Normal,
                       RearmAfterFixedExit, CLEAR_CYCLE, NoPayload)
      case Err(error) => Run([], Err(error))
      case Ok(rearmed) => Run([rearmed], Ok(true))
  }

  function ExitAndRearm(db: Db, exit: nat): Run<SessionResult> {
    match Transition(db, FixedExitKey(CycleOf(db.state), exit), OldAthGuard, H378FixedExit, NO_UPDATES.(target := Set(0)), NoPayload)
    case Err(error) => Run([], Err(error))
    case Ok(exited) =>
      var rearm := RearmIfReady(exited);
      match rearm.outcome
      case Err(error) => Run([exited] + rearm.commits, Err(error))
      case Ok(rearmed) => Run([exited] + rearm.commits, Ok(SessionResult([], true, rearmed)))
  }

  // On its fixed session the exit comes first and drops every open event.
  function ProcessExit(db: Db, exit: nat, sessionCount: nat): Run<SessionResult> {
    var cut := CancelOpen(db, CycleOf(db.state), None, sessionCount);
    match cut.outcome
    case Err(error) => Run(cut.commits, Err(error))
    case Ok(_) => After(cut.commits, ExitAndRearm(End(db, cut.commits), exit))
  }

  function Process(db: Db, session: nat, sessionCount: nat): Run<SessionResult> {
    var s := db.state;
    if session >= sessionCount then Run([], Err(SessionAbsent))
    else
      match s.phase
      case OldAthGuard =>
        var rearm := RearmIfReady(db);
        (match rearm.outcome
        case Err(error) => Run(rearm.commits, Err(error))
        case Ok(rearmed) => Run(rearm.commits, Ok(SessionResult([], false, rearmed))))
      case RecoveryActive =>
        if s.fixedExit.None? || s.fixedExit.value >= sessionCount then Run([], Err(SessionAbsent))
        else if session > s.fixedExit.value then Run([], Err(ExitMissed))
        else if session == s.fixedExit.value then ProcessExit(db, session, sessionCount)
        else ProcessDue(db, session, sessionCount)
      case Normal =>
        if PendingEvents(db, None) != [] then Run([], Err(OrphanEvent))
        else Run([], Ok(SessionResult([], false, false)))
      case WaitD40 => ProcessDue(db, session, sessionCount)
  }

  /* ---- observe_completed_close ---- */

  function CloseTransition(
    db: Db, key: TransitionKey, toPhase: Phase, reason: Reason, updates: Updates, status: CloseStatus
  ): Run<CloseStatus>
  {
    match Transition(db, key, toPhase, reason, updates, NoPayload)
    case Err(error) => Run([], Err(error))
    case Ok(next) => Run([next], Ok(status))
  }

  function ObserveClose(db: Db, session: nat, close: real, sessionCount: nat): Run<CloseStatus> {
    var s := db.state;
    if close <= 0.0 then Run([], Err(NonPositiveClose))
    else if s.phase.Normal? then Run([], Ok(NoActiveCycle))
    else if s.oldAth.None? then Run([], Err(InvalidState))
    else if close + TOL < s.oldAth.value then Run([], Ok(OldAthNotRecovered))
    else
      match s.phase
      case WaitD40 =>
        var cut := CancelOpen(db, CycleOf(s), None, sessionCount);
        (match cut.outcome
        case Err(error) => Run(cut.commits, Err(error))
        case Ok(_) =>
          After(cut.commits,
                CloseTransition(End(db, cut.commits), CancelKey(CycleOf(s), session), Normal, OldAthBeforeFirstEntry,
                                CLEAR_CYCLE, CancelledBeforeFirstEntry)))
      case RecoveryActive =>
        if s.recovered then Run([], Ok(OldAthAlreadyRecorded))
        else CloseTransition(db, RecoveredKey(CycleOf(s), session), RecoveryActive, OldAthWhileActive,
                             NO_UPDATES.(recovered := Set(true)), OldAthRecoveryRecorded)
      case _ =>
        CloseTransition(db, RearmKey(CycleOf(s), session), Normal, RearmAfterOldAth, CLEAR_CYCLE, RearmedOnOldAth)
  }

  /* ---- replay_compiled_history_to_store ---- */

  function EventsOn(events: seq<SourceEvent>, session: nat): seq<SourceEvent> {
    if events == [] then []
    else EventsOn(DropLast(events), session) + if Last(events).signal == session then [Last(events)] else []
  }

  function IngestAll(db: Db, events: seq<SourceEvent>, session: nat, sessionCount: nat): Run<()>
    decreases |events|
  {
    if events == [] then Run([], Ok(()))
    else
      var head := Ingest(db, events[0], session, sessionCount);
      match head.outcome
      case Err(error) => Run(head.commits, Err(error))
      case Ok(_) => After(head.commits, IngestAll(End(db, head.commits), events[1..], session, sessionCount))
  }

  // One history row: executions first, then the source events of its close, then the close.
  function Session(db: Db, events: seq<SourceEvent>, session: nat, close: real, sessionCount: nat): Run<()> {
    var processed := Process(db, session, sessionCount);
    match processed.outcome
    case Err(error) => Run(processed.commits, Err(error))
    case Ok(_) =>
      var db1 := End(db, processed.commits);
      var ingested := IngestAll(db1, EventsOn(events, session), session, sessionCount);
      match ingested.outcome
      case Err(error) => Run(processed.commits + ingested.commits, Err(error))
      case Ok(_) =>
        var db2 := End(db1, ingested.commits);
        var observed := ObserveClose(db2, session, close, sessionCount);
        match observed.outcome
        case Err(error) => Run(processed.commits + ingested.commits + observed.commits, Err(error))
        case Ok(_) => Run(processed.commits + ingested.commits + observed.commits, Ok(()))
  }

  function AllEvents(cycles: seq<SourceCompiler.SourceCycle>): seq<SourceEvent> {
    if cycles == [] then [] else AllEvents(DropLast(cycles)) + Last(cycles).events
  }

  // The store after the first t rows, or the error the replay raised on the way.
  function ReplayTo(closes: seq<real>, events: seq<SourceEvent>, t: nat): Result<Db, StoreError>
    requires t <= |closes|
  {
    if t == 0 then Ok(InitialDb(0.0))
    else
      var db :- ReplayTo(closes, events, t - 1);
      var run := Session(db, events, t - 1, closes[t - 1], |closes|);
      if run.outcome.Err? then Err(run.outcome.error) else Ok(End(db, run.commits))
  }

  function Replay(closes: seq<real>): Result<Db, StoreError> {
    match SourceCompiler.SourceCycles(closes)
    case Err(_) => Err(CompileFailed)
    case Ok(cycles) =>
      var db :- ReplayTo(closes, AllEvents(cycles), |closes|);
      if ValidState(db.state) then Ok(db) else Err(InvalidState)
  }
}
