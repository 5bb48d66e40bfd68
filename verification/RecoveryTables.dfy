// The durable recovery store of src/sp1execution/recovery/state_v01.py: one state row,
// the delayed events, the transition journal and the reserve ledger.  Db is the content
// of the tables at one moment; the functions on it say what each transaction commits,
// and the class RecoveryStore carries them out on its fields.
module RecoveryTables {
  import opened Common
  import Robust

  const TOL := 0.000000001

  datatype Phase = Normal | WaitD40 | RecoveryActive | OldAthGuard

  datatype EventStatus = Pending | Matured | Applied | Cancelled

  // Event keys and transition keys are formatted strings in the source; here they are
  // the values that get formatted.
  datatype SourceKey = SourceKey(cycleId: nat, signal: nat, execution: nat, target: int)

  datatype EventPayload = EventPayload(oldAthDate: nat, oldAth: real, drawdown: real)

  datatype EventRow = EventRow(
    key: SourceKey, cycleId: nat, signal: nat, execution: nat, maturity: nat,
    target: int, status: EventStatus, payload: EventPayload)

  datatype TransitionKey =
    | StartKey(cycleId: nat, session: nat)
    | ApplyKey(source: SourceKey)
    | FixedExitKey(cycleId: nat, session: nat)
    | RearmAfterExitKey(cycleId: nat, session: nat)
    | CancelKey(cycleId: nat, session: nat)
    | RecoveredKey(cycleId: nat, session: nat)
    | RearmKey(cycleId: nat, session: nat)

  datatype Reason =
    | StartSourceCycle
    | ApplyFirstEntry
    | ApplyScaleUp
    | H378FixedExit
    | RearmAfterFixedExit
    | OldAthBeforeFirstEntry
    | OldAthWhileActive
    | RearmAfterOldAth

  datatype Field<+T> = Keep | Set(value: T)

  datatype Updates = Updates(
    cycleId: Field<Option<nat>>, oldAth: Field<Option<real>>, target: Field<int>,
    firstEntry: Field<Option<nat>>, fixedExit: Field<Option<nat>>, recovered: Field<bool>)

  const NO_UPDATES := Updates(Keep, Keep, Keep, Keep, Keep, Keep)

  const CLEAR_CYCLE := Updates(Set(None), Set(None), Set(0), Set(None), Set(None), Set(false))

  datatype TransitionPayload =
    | NoPayload
    | StartPayload(source: SourceKey, oldAthDate: nat)
    | ApplyPayload(source: SourceKey, maturity: nat)

  datatype TransitionRow = TransitionRow(
    key: TransitionKey, before: int, after: int, fromPhase: Phase, toPhase: Phase,
    reason: Reason, updates: Updates, payload: TransitionPayload)

  datatype ReserveRow = ReserveRow(
    key: nat, amount: real, reason: nat, balanceBefore: real, balanceAfter: real, before: int, after: int)

  datatype RecoveryState = RecoveryState(
    revision: int, phase: Phase, cycleId: Option<nat>, oldAth: Option<real>, target: int,
    firstEntry: Option<nat>, fixedExit: Option<nat>, recovered: bool, reserve: real)

  datatype Db = Db(
    state: RecoveryState, events: seq<EventRow>, transitions: seq<TransitionRow>, reserves: seq<ReserveRow>)

  datatype StoreError =
    | NegativeReserve
    | ConflictingReplay
    | IllegalTransition
    | ScaleDownForbidden
    | HoldClockFrozen
    | InvalidState
    | NonFrozenTarget
    | UnknownEvent
    | IllegalStatusChange
    | ZeroReserveEvent
    | ReserveOverdraw
    // raised by the dispatcher
    | NotOnSignalSession
    | NotTPlusOne
    | SessionAbsent
    | CalendarEnds
    | CycleOverlap
    | OldAthDiffers
    | BeforeGuardRelease
    | DueCycleMismatch
    | ScaleAfterExit
    | ScaleMustIncrease
    | NotApplicable
    | InvalidDueStatus
    | ExitMissed
    | MaturityMissed
    | OrphanEvent
    | NonPositiveClose
    | CompileFailed

  function InitialDb(reserve: real): Db {
    Db(RecoveryState(1, Normal, None, None, 0, None, None, false, if reserve < 0.0 then 0.0 else reserve), [], [], [])
  }

  // _validate_state_dict
  predicate ValidState(s: RecoveryState) {
    && s.revision >= 1
    && Robust.FrozenTarget(s.target)
    && s.reserve >= -TOL
    && match s.phase
       case Normal =>
         s.cycleId.None? && s.oldAth.None? && s.target == 0 && s.firstEntry.None? && s.fixedExit.None? && !s.recovered
       case WaitD40 =>
         s.cycleId.Some? && s.oldAth.Some? && s.oldAth.value > 0.0 && s.target == 0 && s.firstEntry.None? && s.fixedExit.None?
       case RecoveryActive =>
         s.cycleId.Some? && s.oldAth.Some? && s.oldAth.value > 0.0 && s.target > 0 && s.firstEntry.Some? && s.fixedExit.Some?
       case OldAthGuard =>
         s.cycleId.Some? && s.oldAth.Some? && s.oldAth.value > 0.0 && s.target == 0 && s.firstEntry.Some? && s.fixedExit.Some?
  }

  predicate AllowedPhase(fromPhase: Phase, toPhase: Phase) {
    match fromPhase
    case Normal => toPhase.WaitD40?
    case WaitD40 => toPhase.WaitD40? || toPhase.RecoveryActive? || toPhase.Normal?
    case RecoveryActive => toPhase.RecoveryActive? || toPhase.OldAthGuard?
    case OldAthGuard => toPhase.Normal?
  }

  predicate AllowedStatus(fromStatus: EventStatus, toStatus: EventStatus) {
    match fromStatus
    case Pending => toStatus.Matured? || toStatus.Cancelled?
    case Matured => toStatus.Applied? || toStatus.Cancelled?
    case Applied => false
    case Cancelled => false
  }

  function FieldOr<T>(f: Field<T>, was: T): T {
    if f.Set? then f.value else was
  }

  function ApplyUpdates(s: RecoveryState, toPhase: Phase, u: Updates): RecoveryState {
    RecoveryState(s.revision, toPhase, FieldOr(u.cycleId, s.cycleId), FieldOr(u.oldAth, s.oldAth),
                  FieldOr(u.target, s.target), FieldOr(u.firstEntry, s.firstEntry),
                  FieldOr(u.fixedExit, s.fixedExit), FieldOr(u.recovered, s.recovered), s.reserve)
  }

  function FindTransition(rows: seq<TransitionRow>, key: TransitionKey): (r: Option<TransitionRow>)
    ensures r.Some? ==> r.value in rows && r.value.key == key
    ensures r.None? ==> forall i :: 0 <= i < |rows| ==> rows[i].key != key
  {
    if rows == [] then None
    else if Last(rows).key == key then Some(Last(rows))
    else FindTransition(DropLast(rows), key)
  }

  // transition_recovery_state: a key already journaled is a no-op or a conflict;
  // otherwise the state moves and one journal row is appended, in one commit.
  function Transition(
    db: Db, key: TransitionKey, toPhase: Phase, reason: Reason, updates: Updates, payload: TransitionPayload
  ): (r: Result<Db, StoreError>)
  {
    match FindTransition(db.transitions, key)
    case Some(row) =>
      if row.toPhase != toPhase || row.reason != reason || row.updates != updates || row.payload != payload
      then Err(ConflictingReplay) else Ok(db)
    case None =>
      var s := db.state;
      if !AllowedPhase(s.phase, toPhase) then Err(IllegalTransition)
      else
        var target := ApplyUpdates(s, toPhase, updates);
        if s.phase.RecoveryActive? && toPhase.RecoveryActive? && target.target < s.target then Err(ScaleDownForbidden)
        else if s.phase.RecoveryActive? && toPhase.RecoveryActive?
                && (target.firstEntry != s.firstEntry || target.fixedExit != s.fixedExit) then Err(HoldClockFrozen)
        else if !ValidState(target) then Err(InvalidState)
        else
          Ok(db.(state := target.(revision := s.revision + 1),
                 transitions := db.transitions +
                   [TransitionRow(key, s.revision, s.revision + 1, s.phase, toPhase, reason, updates, payload)]))
  }

  function FindEvent(events: seq<EventRow>, key: SourceKey): (r: Option<EventRow>)
    ensures r.Some? ==> r.value in events && r.value.key == key
    ensures r.None? ==> forall i :: 0 <= i < |events| ==> events[i].key != key
  {
    if events == [] then None
    else if Last(events).key == key then Some(Last(events))
    else FindEvent(DropLast(events), key)
  }

  // enqueue_delayed_event; the row read back carries the durable status.
  function Enqueue(db: Db, row: EventRow): Result<(Db, EventRow), StoreError> {
    if !Robust.FrozenTarget(row.target) || row.target <= 0 then Err(NonFrozenTarget)
    else
      match FindEvent(db.events, row.key)
      case Some(existing) =>
        if existing.(status := row.status) != row then Err(ConflictingReplay) else Ok((db, existing))
      case None =>
        Ok((db.(events := db.events + [row.(status := Pending)]), row.(status := Pending)))
  }

  function WithStatus(events: seq<EventRow>, key: SourceKey, toStatus: EventStatus): seq<EventRow> {
    seq(|events|, i requires 0 <= i < |events| => if events[i].key == key then events[i].(status := toStatus) else events[i])
  }

  // set_delayed_event_status
  function SetStatus(db: Db, key: SourceKey, toStatus: EventStatus): Result<Db, StoreError> {
    match FindEvent(db.events, key)
    case None => Err(UnknownEvent)
    case Some(row) =>
      if row.status == toStatus then Ok(db)
      else if !AllowedStatus(row.status, toStatus) then Err(IllegalStatusChange)
      else Ok(db.(events := WithStatus(db.events, key, toStatus)))
  }

  predicate Open(row: EventRow) {
    row.status.Pending? || row.status.Matured?
  }

  predicate EarlierMaturity(a: EventRow, b: EventRow) {
    a.maturity <= b.maturity
  }

  function OpenRows(events: seq<EventRow>, cycleId: Option<nat>): seq<EventRow> {
    if events == [] then []
    else
      OpenRows(DropLast(events), cycleId) +
      if Open(Last(events)) && (cycleId.None? || cycleId.value == Last(events).cycleId) then [Last(events)] else []
  }

  // pending_events: open rows by maturity, then by insertion.
  function PendingEvents(db: Db, cycleId: Option<nat>): seq<EventRow> {
    Sort(EarlierMaturity, OpenRows(db.events, cycleId))
  }

  function FindReserve(rows: seq<ReserveRow>, key: nat): (r: Option<ReserveRow>)
    ensures r.Some? ==> r.value in rows && r.value.key == key
    ensures r.None? ==> forall i :: 0 <= i < |rows| ==> rows[i].key != key
  {
    if rows == [] then None
    else if Last(rows).key == key then Some(Last(rows))
    else FindReserve(DropLast(rows), key)
  }

  function Abs(x: real): real {
    if x < 0.0 then -x else x
  }

  // apply_reserve_ledger_event
  function ReserveEvent(db: Db, key: nat, amount: real, reason: nat): Result<Db, StoreError> {
    if Abs(amount) <= TOL then Err(ZeroReserveEvent)
    else
      match FindReserve(db.reserves, key)
      case Some(row) =>
        if Abs(row.amount - amount) > TOL || row.reason != reason then Err(ConflictingReplay) else Ok(db)
      case None =>
        var s := db.state;
        var balance := s.reserve + amount;
        if balance < -TOL then Err(ReserveOverdraw)
        else
          var after := if balance < 0.0 then 0.0 else balance;
          if !ValidState(s.(reserve := after)) then Err(InvalidState)
          else
            Ok(db.(state := s.(reserve := after, revision := s.revision + 1),
                   reserves := db.reserves +
                     [ReserveRow(key, amount, reason, s.reserve, after, s.revision, s.revision + 1)]))
  }

  /* ---- The same transactions on a store whose fields change in place ---- */

  class RecoveryStore {
    var state: RecoveryState
    var events: seq<EventRow>
    var transitions: seq<TransitionRow>
    var reserves: seq<ReserveRow>

    // Every committed content of the tables since the store was opened, oldest first:
    // a crash is a restart from any of them.
    ghost var commits: seq<Db>

    function View(): Db
      reads this
    {
      Db(state, events, transitions, reserves)
    }

    constructor (reserve: real)
      requires reserve >= -TOL
      ensures View() == InitialDb(reserve) && commits == []
    {
      state := RecoveryState(1, Normal, None, None, 0, None, None, false, if reserve < 0.0 then 0.0 else reserve);
      events, transitions, reserves := [], [], [];
      commits := [];
    }

    method LookUpTransition(key: TransitionKey) returns (r: Option<TransitionRow>)
      ensures r == FindTransition(transitions, key)
    {
      var i := |transitions|;
      assert transitions[..i] == transitions;
      while i > 0
        invariant 0 <= i <= |transitions|
        invariant FindTransition(transitions, key) == FindTransition(transitions[..i], key)
      {
        assert DropLast(transitions[..i]) == transitions[..i - 1];
        if transitions[i - 1].key == key {
          return Some(transitions[i - 1]);
        }
        i := i - 1;
      }
      return None;
    }

    method TransitionState(
      key: TransitionKey, toPhase: Phase, reason: Reason, updates: Updates, payload: TransitionPayload
    ) returns (error: Option<StoreError>)
      modifies this
      ensures match Transition(old(View()), key, toPhase, reason, updates, payload)
              case Err(e) => error == Some(e) && View() == old(View()) && commits == old(commits)
              case Ok(db) => error == None && View() == db && commits == old(commits) + [db]
    {
      var existing := LookUpTransition(key);
      if existing.Some? {
        var row := existing.value;
        if row.toPhase != toPhase || row.reason != reason || row.updates != updates || row.payload != payload {
          return Some(ConflictingReplay);
        }
        commits := commits + [View()];
        return None;
      }
      if !AllowedPhase(state.phase, toPhase) {
        return Some(IllegalTransition);
      }
      var target := ApplyUpdates(state, toPhase, updates);
      if state.phase.RecoveryActive? && toPhase.RecoveryActive? {
        if target.target < state.target {
          return Some(ScaleDownForbidden);
        }
        if target.firstEntry != state.firstEntry || target.fixedExit != state.fixedExit {
          return Some(HoldClockFrozen);
        }
      }
      if !ValidState(target) {
        return Some(InvalidState);
      }
      var row := TransitionRow(key, state.revision, state.revision + 1, state.phase, toPhase, reason, updates, payload);
      state := target.(revision := state.revision + 1);
      transitions := transitions + [row];
      commits := commits + [View()];
      return None;
    }

    method LookUpEvent(key: SourceKey) returns (r: Option<EventRow>)
      ensures r == FindEvent(events, key)
    {
      var i := |events|;
      assert events[..i] == events;
      while i > 0
        invariant 0 <= i <= |events|
        invariant FindEvent(events, key) == FindEvent(events[..i], key)
      {
        assert DropLast(events[..i]) == events[..i - 1];
        if events[i - 1].key == key {
          return Some(events[i - 1]);
        }
        i := i - 1;
      }
      return None;
    }

    method EnqueueDelayedEvent(row: EventRow) returns (r: Result<EventRow, StoreError>)
      modifies this
      ensures match Enqueue(old(View()), row)
              case Err(e) => r == Err(e) && View() == old(View()) && commits == old(commits)
              case Ok((db, stored)) => r == Ok(stored) && View() == db && commits == old(commits) + [db]
    {
      if !Robust.FrozenTarget(row.target) || row.target <= 0 {
        return Err(NonFrozenTarget);
      }
      var existing := LookUpEvent(row.key);
      if existing.Some? {
        if existing.value.(status := row.status) != row {
          return Err(ConflictingReplay);
        }
        commits := commits + [View()];
        return Ok(existing.value);
      }
      events := events + [row.(status := Pending)];
      commits := commits + [View()];
      return Ok(row.(status := Pending));
    }

    method SetDelayedEventStatus(key: SourceKey, toStatus: EventStatus) returns (error: Option<StoreError>)
      modifies this
      ensures match SetStatus(old(View()), key, toStatus)
              case Err(e) => error == Some(e) && View() == old(View()) && commits == old(commits)
              case Ok(db) => error == None && View() == db && commits == old(commits) + [db]
    {
      var found := LookUpEvent(key);
      if found.None? {
        return Some(UnknownEvent);
      }
      if found.value.status == toStatus {
        commits := commits + [View()];
        return None;
      }
      if !AllowedStatus(found.value.status, toStatus) {
        return Some(IllegalStatusChange);
      }
      var updated: seq<EventRow> := [];
      for i := 0 to |events|
        invariant |updated| == i
        invariant forall k :: 0 <= k < i ==>
          updated[k] == if events[k].key == key then events[k].(status := toStatus) else events[k]
      {
        updated := updated + [if events[i].key == key then events[i].(status := toStatus) else events[i]];
      }
      assert updated == WithStatus(events, key, toStatus);
      events := updated;
      commits := commits + [View()];
      return None;
    }

    method LoadPendingEvents(cycleId: Option<nat>) returns (rows: seq<EventRow>)
      ensures rows == PendingEvents(View(), cycleId)
    {
      var open: seq<EventRow> := [];
      for i := 0 to |events|
        invariant open == OpenRows(events[..i], cycleId)
      {
        assert DropLast(events[..i + 1]) == events[..i];
        if Open(events[i]) && (cycleId.None? || cycleId.value == events[i].cycleId) {
          open := open + [events[i]];
        }
      }
      assert events[..|events|] == events;
      return Sort(EarlierMaturity, open);
    }

    method LookUpReserve(key: nat) returns (r: Option<ReserveRow>)
      ensures r == FindReserve(reserves, key)
    {
      var i := |reserves|;
      assert reserves[..i] == reserves;
      while i > 0
        invariant 0 <= i <= |reserves|
        invariant FindReserve(reserves, key) == FindReserve(reserves[..i], key)
      {
        assert DropLast(reserves[..i]) == reserves[..i - 1];
        if reserves[i - 1].key == key {
          return Some(reserves[i - 1]);
        }
        i := i - 1;
      }
      return None;
    }

    method ApplyReserveLedgerEvent(key: nat, amount: real, reason: nat) returns (error: Option<StoreError>)
      modifies this
      ensures match ReserveEvent(old(View()), key, amount, reason)
              case Err(e) => error == Some(e) && View() == old(View()) && commits == old(commits)
              case Ok(db) => error == None && View() == db && commits == old(commits) + [db]
    {
      if Abs(amount) <= TOL {
        return Some(ZeroReserveEvent);
      }
      var existing := LookUpReserve(key);
      if existing.Some? {
        if Abs(existing.value.amount - amount) > TOL || existing.value.reason != reason {
          return Some(ConflictingReplay);
        }
        commits := commits + [View()];
        return None;
      }
      var balance := state.reserve + amount;
      if balance < -TOL {
        return Some(ReserveOverdraw);
      }
      var after := if balance < 0.0 then 0.0 else balance;
      if !ValidState(state.(reserve := after)) {
        return Some(InvalidState);
      }
      var row := ReserveRow(key, amount, reason, state.reserve, after, state.revision, state.revision + 1);
      state := state.(reserve := after, revision := state.revision + 1);
      reserves := reserves + [row];
      commits := commits + [View()];
      return None;
    }
  }
}
