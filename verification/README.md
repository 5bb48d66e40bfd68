# A verified model of the recovery engine and of the two-phase broker execution

The repository trades a strategy sleeve on two durable state machines kept in SQLite.  This
project models both as Dafny tables, writes every transaction as a function of the tables and as
a method on a store whose fields change in place, and proves what holds over whole runs.  A
commit is one atomic step; a crash is a stop after any commit.

**The recovery engine.** Closes move a NORMAL / CRASH / POST_HANDOFF machine (`Robust`); its
ladder events are grouped into cycles (`SourceCompiler`); a batch compiler delays them by T+1 and
40 sessions, adds one exit 378 sessions after the first entry, and drops a cycle whose old ATH
returns first (`FinalSchedule`). An online dispatcher (`Dispatcher`, on the tables of
`RecoveryTables`) does the same one session at a time, with pending events, a journal and several
commits per action. The main theorem (`Refinement`) is that the online journal is the batch
schedule, with the exact condition under which it is and the exact condition under which the
replay runs at all. The proof is a closed form of the whole store after any part of any session
(`Timeline`, `ClosedForm`, `TableFacts`), kept by each operation (`StoreLemmas`, `StoreSteps`,
`ProcessRefines`, `IngestRefines`, `ObserveRefines`). Its corollaries are the delay line and the
snapshot gates (`DelayLine`), and with crash idempotence (`CrashSafety`, `CrashProcess`,
`CrashReplay`, on any history) the refinement holds under any crashes. `Causality`, `GuardAudit`,
`SourceMeaning`, `CycleStory`, `SourcePeaks`, `StoreRuns`, `StoreLife`, `DispatchAnswers` and
`MissedSessions` state what the compilers, the audit, the ladder machine, the store and single
calls come to by themselves; `SourceMeaning.EverySignal` and `CycleStory.SourceCyclesAre` do so on
the closes alone. `AuditReplay` relates the audit to the replay, and `Histories`, `Disagreement`
and `TinyPrices` hold concrete histories; `DurableDispatcher` carries the dispatcher out on a
store.

**The execution protocol.** A rebalance sells, reconciles, replans and buys leg by leg, with a
durable intent before every POST and no retry (`ExecutionTables`, `Executor`). The broker and
everything outside the database answer through an oracle without any restriction. Every cycle is
shown to be a sequence of allowed steps (`ExecutionSteps`, `CycleSteps`), each of which keeps an
invariant coupling machine state, workflow, legs, cash and journal keys (`ExecutionInvariant`,
`ExecutionKeeps`, `ExecutionEffects`); from it follow the totality of recovery (`CycleRuns`), the
order of the POSTs (`PostOrder`, `BuySequence`), exactly which broker answers keep the buys one at
a time (`BuysInFlight`, `FillTakenBack`), the cash bound (`CashBound`), when a returned snapshot
names the machine's state (`SnapshotLabel`) and the journal (`ExecutionJournal`). What a cycle
does is told by the answers it gets: which action recovery picks (`DecisionTable`) and whether it
can be refused (`Refusals`, `DearBuy`), which orders go out (`Submissions`), what a reconciliation
books and marks (`Booking`, `Reconciliation`), which transactions pass (`TransactionAnswers`), and
all of it together (`CycleMakes`); so a rebalance whose orders are filled ends (`Completion`).
`ConcurrentSubmit` is the other regime: any number of processes submitting on one file-backed
database under the file lock. `ExecutionStore` and `CycleDriver` carry the protocol out on a
store. `Capital`, `History` with `HistorySplits`, `Planner` with `PlannedOrders`, and
`PhysicalTarget` are the ledger, the paged order history, the order planner with its buy replan,
and the physical target that feed the two machines.

Sessions are positions in the canonical calendar.  Prices, weights and planner quantities are
exact reals, sleeve targets whole percents, ledger money whole cents, leg estimates a real number
of cents.  Event keys are the values that the source formats into strings.

Things the proofs brought out about the code:

- When a close reaches the old ATH while the crash is still running, the compiler emits a handoff
  and rearms only on a later close, but the dispatcher acts at once; and the dispatcher takes a
  close within 1e-9 below the old ATH for a recovery.  `Disagreement.TheyDisagree` gives histories
  on which the two then trade differently, `Refinement.OnlineRefinesBatch` says they trade alike
  iff they cancel the same cycles, and `Refinement.SameCutsInCloses` says when that is.
- When the prices themselves are of the size of that tolerance, a crash close can pass for the
  recovery and a later ladder signal enter the same cycle again (`TinyPrices.TinyPricesDisagree`);
  `Timeline.SignalsPrecedeRecoveryAtScale` rules it out for closes of at least 1e-8.
- The guard audit skips cancelled cycles, whose first signals the dispatcher refuses as well, and
  it flags a signal on the exit session itself, which the dispatcher accepts.
  `AuditReplay.PassesAndRaises` and `AuditReplay.FailsAndReturns` give histories for both, and
  `AuditReplay.AuditDecidesReplay` says what must hold besides for the replay to return.
- A ladder signal at or after its own cycle's exit is discarded by the compiler and raises in the
  dispatcher (`AuditReplay.LateSignalRaises`; `Refinement.OnlineIsBatch` has the exact condition).
- After a close above the old peak during a crash, a later cycle can carry an ATH value below the
  close at its ATH date (`Histories.AthNotCarried`); `SourcePeaks.CarriedAth` says exactly when.
- A PARTIAL or PENDING transition whose key is already journaled leaves the machine where it was,
  so the state named in the returned snapshot can run ahead of the machine
  (`SnapshotLabel.LabelRunsAhead`); `SnapshotLabel.SellLabel` and `SnapshotLabel.BuyLabel` say
  exactly when, and every advancing key is fresh.
- A broker that reports a filled buy as unfilled after the next buy has gone out leaves two buys in
  flight (`FillTakenBack.TwoBuysInFlight`); `BuysInFlight.OneBuyInFlight` has the exact condition on
  its answers.
- A buy filled above its estimate can leave less cash than the next one is estimated at.  Recovery
  then goes on choosing that buy and the executor goes on refusing it, so that no cycle changes
  anything any more (`DearBuy.StuckForGood`, reached in `DearBuy.DearBuyIsReached`);
  `Refusals.ChosenIsReady` says that no other choice of recovery is ever refused in this way.
- Order identities agree only within a tolerance, so the way a history is split into pages can decide
  whether it is accepted (`HistorySplits.ToleranceMatters`), but never what the records are once it
  is; `HistorySplits.SplitNeverMattersIff` says exactly when the split does not matter.
- Recording an intent twice is silent, so at-most-once POST rests on the file lock
  (`ConcurrentSubmit.WithoutLockTwice`).

## Model

| member | source | states |
|---|---|---|
| Refinement.OnlineIsBatch | src/sp1execution/recovery/durable_dispatcher_v01.py:1097-1161 | For every history without a close at the old peak during a crash and without a close below an old ATH by the tolerance or less: the replay returns iff the schedule compiles, no live cycle signals at or after its own exit and no cycle signals before an earlier live one is released; then its journal is the compiled schedule, trade for trade and in order, and it returns to NORMAL exactly once per recovered cycle, at the recovery when that precedes entry, else at the later of exit and recovery |
| Refinement.OnlineRefinesBatch | src/sp1execution/recovery/causal_compiler_v01.py:506-656 | Whenever the replay and the schedule both run, the online trades equal the compiled ones if and only if the two agree which cycles are cancelled |
| Refinement.SameCutsInCloses | src/sp1execution/recovery/durable_dispatcher_v01.py:1009-1047 | The two sides agree which cycles are cancelled iff, whenever a close before the entry comes within the tolerance of the old ATH, the compiler too dates the recovery before the entry |
| Refinement.ReplayMeaning | src/sp1execution/recovery/durable_dispatcher_v01.py:1097-1161 | The replay returns exactly when its three per-cycle conditions hold, and then its journal holds exactly the trades of the uncancelled cycles by date and exactly one return to NORMAL per recovered cycle |
| Refinement.RunsIffScheduled | src/sp1execution/recovery/causal_compiler_v01.py:506-656 | Given that agreement, the replay runs iff the schedule compiles and no live signal comes too late or too early |
| Refinement.AgreeingHistories | src/sp1execution/strategy/robust.py:82-120 | Under the two price conditions the dispatcher and the compiler date every recovery alike and cancel the same cycles |
| Timeline.SignalsPrecedeRecoveryAtScale | src/sp1execution/recovery/durable_dispatcher_v01.py:1011-1016 | When every close is at least 1e-8, no ladder signal comes at or after a close the dispatcher takes for the recovery of its cycle |
| TinyPrices.TinyPricesDisagree | src/sp1execution/recovery/durable_dispatcher_v01.py:1009-1094 | Histories with prices of the size of the tolerance on which both sides return and cancel the same cycles and still trade differently: a ladder signal after the exit, in a cycle whose recovery the dispatcher took from a crash close, enters the cycle a second time |
| Refinement.ScheduleChronological | src/sp1execution/recovery/causal_compiler_v01.py:649-656 | The schedule sorted by cycle is in date order too, so that trades of different cycles never interleave, iff each uncancelled cycle leaves before every later one enters |
| Refinement.ReplayIs | src/sp1execution/recovery/durable_dispatcher_v01.py:1097-1161 | Every prefix of a replay has raised, exactly when a signal was refused or an entry had no exit on the calendar, or is the closed form: state row, event table, trades and returns |
| Refinement.SessionStep | src/sp1execution/recovery/durable_dispatcher_v01.py:1134-1157 | One history row raises on exactly the stated condition, or moves the closed form on by one session |
| Disagreement.TheyDisagree | src/sp1execution/recovery/durable_dispatcher_v01.py:1009-1047 | A family of histories on which both sides return and their trades differ: the old ATH touched while the crash still runs, or only within the tolerance |
| Disagreement.TheyAgree | src/sp1execution/recovery/durable_dispatcher_v01.py:1097-1161 | A family of histories meeting the conditions: both sides return and trade alike, entering at session 42 and leaving at 420 |
| ProcessRefines.ProcessStep | src/sp1execution/recovery/durable_dispatcher_v01.py:760-960 | Executions of a session: raises iff a first entry has no exit on the calendar, else the store is in closed form past them |
| ProcessRefines.EntryProcess | src/sp1execution/recovery/durable_dispatcher_v01.py:599-640 | First entry on its session starts the 378-session clock at the right target, or raises for want of calendar |
| ProcessRefines.ScaleProcess | src/sp1execution/recovery/durable_dispatcher_v01.py:641-707 | A scale-up on its session raises the target and moves no date |
| ProcessRefines.ExitProcess | src/sp1execution/recovery/durable_dispatcher_v01.py:812-865 | The fixed exit zeroes the sleeve and returns to NORMAL at once iff the old ATH has been seen |
| IngestRefines.IngestStep | src/sp1execution/recovery/durable_dispatcher_v01.py:177-420 | Signals of a session: refused iff too late for the calendar, for their own exit or for an earlier hold, else the store is in closed form with them |
| IngestRefines.FirstSignal | src/sp1execution/recovery/durable_dispatcher_v01.py:293-367 | A first signal is taken iff the store is idle, which is iff every earlier live cycle has exited |
| IngestRefines.LaterSignal | src/sp1execution/recovery/durable_dispatcher_v01.py:332-420 | A later signal joins its own cycle, pending, or cancelled when it matures at or after the exit |
| IngestRefines.HandoffsIgnored | src/sp1execution/recovery/durable_dispatcher_v01.py:205-212 | Handoff events change nothing, so ingesting a session is ingesting its ladder events |
| ObserveRefines.ObserveStep | src/sp1execution/recovery/durable_dispatcher_v01.py:967-1094 | Observing a close never raises after accepted signals, and keeps the closed form |
| ObserveRefines.CancelClose | src/sp1execution/recovery/durable_dispatcher_v01.py:1019-1047 | The old ATH back before the first entry cancels exactly the open events of the live cycle and returns to NORMAL |
| ObserveRefines.RecoveryClose | src/sp1execution/recovery/durable_dispatcher_v01.py:1049-1094 | After entry the recovery is recorded while active, and after the exit returns the store to NORMAL |
| DelayLine.DelayLineTarget | src/sp1execution/recovery/durable_dispatcher_v01.py:599-694 | After every session of a non-raising replay the target is the largest ladder target signalled at least 41 sessions ago whose live uncancelled cycle is before first signal + 41 + 378, and 0 without one |
| DelayLine.ClockNeverMoves | src/sp1execution/recovery/state_v01.py:762-806 | From a first entry to its exit the store keeps the same cycle, entry and exit dates, and the target never falls |
| DelayLine.SnapshotsPass | src/sp1execution/recovery/current_core_return_runtime_target_v01.py:439-555 | The snapshot after any row passes every phase gate, its open events belong to the live cycle and mature strictly later, and its weight is positive iff it directs ACTIVE_TARGET |
| ClosedForm.TradeIsCurrent | src/sp1execution/recovery/durable_dispatcher_v01.py:760-960 | A trade scheduled for a session is one of the current, uncancelled cycle |
| TableFacts.OpenRowIsCurrent | src/sp1execution/recovery/state_v01.py:1179-1232 | An open delayed event belongs to the current cycle, is pending, and matures on the calendar, not yet past and before the exit |
| TableFacts.TargetRises | src/sp1execution/recovery/durable_dispatcher_v01.py:666-690 | When a later ladder event matures the target strictly rises to its own |
| TableFacts.StateIsValid | src/sp1execution/recovery/state_v01.py:391-576 | Every closed-form state passes the state validation |
| CrashReplay.CrashesChangeNothing | src/sp1execution/recovery/durable_dispatcher_v01.py:1097-1161 | Any history and any source events: a replay whose every call of every row is stopped after any of its commits, any number of times, and called again ends in the same store, or raises the same error, as the undisturbed one |
| CrashReplay.CrashedReplayIsSchedule | src/sp1execution/recovery/durable_dispatcher_v01.py:1097-1161 | Under the two price conditions a replay that returns executes the compiled schedule, trade for trade, under any stops |
| CrashSafety.IngestResumes | src/sp1execution/recovery/durable_dispatcher_v01.py:237-420 | Ingest, stopped after any commit and called again, returns or raises as the undisturbed call does and reaches the same store, from any store at all, raising calls that had committed included |
| CrashSafety.ObserveResumes | src/sp1execution/recovery/durable_dispatcher_v01.py:967-1094 | The same for observing a close, on any store with unique event keys |
| CrashProcess.ProcessResumes | src/sp1execution/recovery/durable_dispatcher_v01.py:451-707 | The same for an execution session with any number of due events, on any store with unique event keys whose open events belong to the live cycle and were signalled before the session |
| CrashProcess.EverythingMaturesSoon | src/sp1execution/recovery/durable_dispatcher_v01.py:105-174 | Every event open at the first entry matures within 40 sessions, so the cancellation a resumed call skips is vacuous |
| CrashSafety.StopsDoNotMatter | src/sp1execution/recovery/durable_dispatcher_v01.py:451-520 | When one stop resumes to the same end and outcome, any series of stops does |
| CrashSafety.CutStopped | src/sp1execution/recovery/durable_dispatcher_v01.py:105-174 | A cancellation loop stopped inside has cancelled only open events of its cycle and changed nothing else |
| DurableDispatcher.IngestSourceEvent | src/sp1execution/recovery/durable_dispatcher_v01.py:177-420 | Commits exactly its run, in order, and returns its outcome |
| DispatchAnswers.IngestAnswers | src/sp1execution/recovery/durable_dispatcher_v01.py:177-420 | For any store a source event is taken iff it is seen on its signal session with T+1 on the calendar and is a handoff, or a rung maturing on the calendar that nothing queued contradicts and that is settled already, starts a cycle, or belongs to the waiting or active one with its old ATH |
| DurableDispatcher.ResumeTransitionThenApply | src/sp1execution/recovery/durable_dispatcher_v01.py:451-520 | Resumes iff the transition is journaled, and then only replays it and marks the event |
| DurableDispatcher.ApplyDueEvent | src/sp1execution/recovery/durable_dispatcher_v01.py:523-707 | Commits exactly its run, in order, and returns its outcome |
| DispatchAnswers.OnlyUpBeforeExit | src/sp1execution/recovery/durable_dispatcher_v01.py:523-707 | For any store a matured event is applied only to enter a waiting cycle with the whole hold on the calendar, or to raise the target of its own cycle before its exit |
| DispatchAnswers.ScaleAnswers | src/sp1execution/recovery/durable_dispatcher_v01.py:641-707 | In an active cycle a matured event is applied iff it is of that cycle, is a rung above the target, and comes before the exit |
| DurableDispatcher.ProcessExecutionSession | src/sp1execution/recovery/durable_dispatcher_v01.py:760-960 | Commits exactly its run, in order, and returns its outcome |
| MissedSessions.FailsClosed | src/sp1execution/recovery/durable_dispatcher_v01.py:812-960 | For any store and any session of the calendar: it raises for a missed maturity iff an open event of the waiting or active cycle matures before the session, for a missed exit iff the exit of the active cycle lies before it, and then writes nothing |
| DurableDispatcher.ObserveCompletedClose | src/sp1execution/recovery/durable_dispatcher_v01.py:967-1094 | Commits exactly its run, in order, and returns its outcome |
| DurableDispatcher.ReplayCompiledHistory | src/sp1execution/recovery/durable_dispatcher_v01.py:1097-1161 | The loops over rows, events and pending rows compute the replay the refinement is about |
| Robust.CrashCloseIsLow | src/sp1execution/strategy/robust.py:82-113 | While a crash runs and has not handed off, the close is at most 86.5% of the old peak |
| Robust.RotateRaisesTarget | src/sp1execution/strategy/robust.py:66-95 | A ladder event only raises the target, to the rung of its own drawdown, at 70% of the peak or below |
| Robust.LadderReached | src/sp1execution/strategy/robust.py:29-50 | The ladder target is positive iff the close is at most 70% of the peak; the drawdown is a fraction |
| Robust.CrashTarget | src/sp1execution/strategy/robust.py:44-50 | The ladder loop computes the step function of the drawdown |
| Robust.TargetFromDrawdown | src/sp1execution/recovery/core_return_v01.py:86-109 | The same ladder behind a range check |
| SourceMeaning.MachineMeans | src/sp1execution/strategy/robust.py:53-122 | After every close the peak is the highest close since the last rearm up to the crash, the trough the lowest close of the crash, the target the rung its trough reached; while a crash runs, every close since its start raised the rung or had regained less than 55% of the fall to the trough so far, and the handoff is the first close that did neither |
| SourceMeaning.EverySignal | src/sp1execution/strategy/robust.py:59-122 | On closes alone: a close signals a rotation iff it falls to a first rung or raises the rung, the handoff iff it is the first of the crash that raises none and has regained 55% of the fall to the lowest close so far, and the rearm iff it is the first back at the peak after the handoff |
| Robust.RobustState.ObserveClose | src/sp1execution/strategy/robust.py:59-122 | The in-place machine takes the step whose signals SourceMeaning.EverySignal pins on the closes, keeps its invariant, and refuses non-positive prices unchanged |
| SourceCompiler.CompilerIsTotal | src/sp1execution/recovery/causal_compiler_v01.py:263-493 | On every positive history the consistency errors are unreachable: it fails iff the last close signals and so has no T+1, and otherwise yields well-shaped, non-overlapping cycles |
| SourceCompiler.FoldTotal | src/sp1execution/recovery/causal_compiler_v01.py:296-478 | The same after every row: the builder is live iff the mode is not NORMAL, and cycles keep their shape |
| SourceCompiler.AtMostFourRungs | src/sp1execution/recovery/causal_compiler_v01.py:330-420 | A cycle has one to four ladder events and at most one handoff, as its last event |
| CycleStory.SourceCyclesAre | src/sp1execution/recovery/causal_compiler_v01.py:263-493 | The compiled cycles are exactly the one account of the closes in which each cycle starts at the first fall to a rung since the one before ended, has a ladder event at each close that raises the rung and a handoff at the first that raises none and regains 55%, and ends at the first close back at the peak |
| CycleStory.StoryIsUnique | src/sp1execution/recovery/causal_compiler_v01.py:263-493 | There is at most one such account of any closes |
| SourceMeaning.CompiledNumbers | src/sp1execution/recovery/causal_compiler_v01.py:296-478 | Every compiled cycle dates its ATH at the first of the highest closes up to its first signal, its ATH value is at most that close, and every event has the drawdown of its own close |
| SourcePeaks.CarriedAth | src/sp1execution/recovery/causal_compiler_v01.py:296-478 | Every compiled cycle carries as its ATH value the highest close from the last rearm to its first signal, which is the close at its ATH date iff that close was reached again from the last rearm on |
| Histories.AthNotCarried | src/sp1execution/recovery/causal_compiler_v01.py:330-360 | A history whose second cycle carries the ATH value 101 with the date of the close 110 |
| SourceCompiler.CompileSourceCycles | src/sp1execution/recovery/causal_compiler_v01.py:263-493 | The loop driving a RobustState object computes the specified cycles or error |
| FinalSchedule.ScheduleMeaning | src/sp1execution/recovery/causal_compiler_v01.py:506-656 | The schedule compiles iff the calendar reaches every delayed entry and every exit of an uncancelled cycle, and then holds exactly the trades T+1+40 before the exit and the exit 378 sessions after the first entry, by cycle and date |
| FinalSchedule.CycleScheduleMeaning | src/sp1execution/recovery/causal_compiler_v01.py:525-646 | The same for one cycle, which is empty iff the old ATH returns strictly before the first entry |
| FinalSchedule.ScheduleDated | src/sp1execution/recovery/causal_compiler_v01.py:601-642 | On every final event the dates fit: T+1 and 41 sessions after the signal with a positive target, or target zero with the exit signalled the session before |
| FinalSchedule.CompileFinalSchedule | src/sp1execution/recovery/causal_compiler_v01.py:506-656 | The loops compute the specified schedule or error |
| Causality.SourceCausality | src/sp1execution/recovery/causal_compiler_v01.py:263-493 | Appending closes keeps every compiled cycle and source event; anything added is dated in the appended part |
| Causality.ScheduleCausality | src/sp1execution/recovery/causal_compiler_v01.py:506-656 | The final schedule of the shorter history is a prefix of that of the longer one, and every further event is caused by a signal in the appended part |
| GuardAudit.AuditIsRelease | src/sp1execution/recovery/causal_compiler_v01.py:659-802 | A row passes iff the next active cycle first signals strictly after the exit and after the recovery; among active cycles that is the dispatcher condition except when a signal falls on the exit session itself |
| GuardAudit.AuditRows | src/sp1execution/recovery/causal_compiler_v01.py:659-802 | There is one row for each live cycle, in order, with its exit, its recovery, the later of the two, and the next live cycle with its first signal |
| GuardAudit.PassingAuditReleases | src/sp1execution/recovery/causal_compiler_v01.py:659-802 | If every row passes, no live cycle signals before the exit of an earlier live one; of cancelled cycles the audit says nothing |
| AuditReplay.AuditDecidesReplay | src/sp1execution/recovery/causal_compiler_v01.py:659-802 | Under the two price conditions a compiled schedule replays without raising iff no live cycle signals at or after its own exit, every audit row passes or has its next signal on the exit session itself, and every cancelled cycle is clear of earlier holds |
| AuditReplay.PassesAndRaises | src/sp1execution/recovery/durable_dispatcher_v01.py:325-340 | Histories on which every audit row passes and the replay raises: a cancelled cycle signals inside the hold of the one before |
| AuditReplay.FailsAndReturns | src/sp1execution/recovery/causal_compiler_v01.py:740-800 | Histories on which an audit row fails and the replay returns: the next cycle signals on the exit session itself |
| AuditReplay.LateSignalRaises | src/sp1execution/recovery/durable_dispatcher_v01.py:332-420 | Histories whose crash deepens on the exit session of its own cycle: the schedule compiles without the late signal and the replay raises on it |
| GuardAudit.CompileGuardAudit | src/sp1execution/recovery/causal_compiler_v01.py:659-802 | The loop over active cycles computes the specified rows |
| StoreRuns.EveryRunKeeps | src/sp1execution/recovery/state_v01.py:812-885 | After every run of transactions the transition and reserve rows tile the revisions from 1 with no gap or overlap, transition rows chain through the phases, reserve rows through the balances, keys are unique, and the balance is within n tolerances above start plus accepted amounts and never negative |
| StoreLife.EveryRunLivesOn | src/sp1execution/recovery/state_v01.py:1102-1150 | In every run of transactions no event and no journal row is lost or rewritten but for the status of an event, which goes from PENDING to MATURED to APPLIED, or to CANCELLED before that |
| StoreLife.ActiveRunHolds | src/sp1execution/recovery/state_v01.py:760-812 | In every run of transactions through which a cycle stays active its target never falls and its entry and exit never move |
| StoreLife.EveryRunInShape | src/sp1execution/recovery/state_v01.py:391-576 | Every state of every run is in shape field by field: a positive target exactly while active, a cycle and its ATH exactly outside NORMAL, an entry and an exit exactly from entry to release |
| StoreRuns.ReserveReplayedLater | src/sp1execution/recovery/state_v01.py:1252-1445 | An accepted reserve event replayed after any further transactions is recognised and changes nothing |
| StoreRuns.ReserveAnswers | src/sp1execution/recovery/state_v01.py:1235-1445 | The first reserve event of a key is accepted iff it exceeds the tolerance and leaves no less than zero within it, and then moves the reserve by its amount; a later one iff it repeats amount and reason, and then changes nothing; each error has its exact condition |
| RecoveryTables.RecoveryStore.TransitionState | src/sp1execution/recovery/state_v01.py:593-904 | Commits the specified transition, or raises and changes nothing |
| StoreLife.TransitionAnswers | src/sp1execution/recovery/state_v01.py:593-904 | A transition under a new key is accepted iff it follows an arc of the machine, leaves the state in shape, and while active neither lowers the target nor moves the clock; under a journaled key iff the row says the same, and then nothing changes |
| RecoveryTables.RecoveryStore.EnqueueDelayedEvent | src/sp1execution/recovery/state_v01.py:907-1077 | Commits the specified insertion or replay, or raises and changes nothing |
| StoreLife.EnqueueAnswers | src/sp1execution/recovery/state_v01.py:907-1077 | An event is queued iff its target is a positive rung and nothing queued under its key says otherwise; then once, as PENDING, or read back with its status |
| RecoveryTables.RecoveryStore.SetDelayedEventStatus | src/sp1execution/recovery/state_v01.py:1080-1176 | Commits the specified status change, or raises and changes nothing |
| StoreLife.StatusAnswers | src/sp1execution/recovery/state_v01.py:1080-1176 | A status is set iff it is that of the event or the next of its life, and no other event changes |
| RecoveryTables.RecoveryStore.LoadPendingEvents | src/sp1execution/recovery/state_v01.py:1179-1232 | Returns the open rows by maturity, then insertion |
| RecoveryTables.RecoveryStore.ApplyReserveLedgerEvent | src/sp1execution/recovery/state_v01.py:1235-1445 | Commits the specified ledger row and balance, or raises and changes nothing |
| CycleRuns.EveryRun | src/sp1execution/execution/cycle_v04.py:683-836 | In every state of every single-process run, stopped anywhere and with any broker: the invariant holds, POSTs are in order, recovery answers soundly, and at most one workflow is unfinished |
| CycleRuns.RecoveryIsTotal | src/sp1execution/execution/recovery_v04.py:244-509 | In every state with the invariant classify_recovery returns a decision, and allows a submission only with no intent without order id and, for a BUY, nothing in flight and at most one cent of debt |
| DecisionTable.ClassifyTable | src/sp1execution/execution/recovery_v04.py:244-509 | For every store: recovery answers iff at most one workflow is open, the machine idles when none is, and the open one is where its status and phase put it; it then says SUBMIT_SELL iff no sell intent is unanswered and some sell is planned, RECONCILE_SELL iff none is planned either, RECONCILE_BUY iff a buy is in flight, SUBMIT_BUY iff none is, and likewise the rest |
| DecisionTable.ClassifyNamed | src/sp1execution/execution/recovery_v04.py:244-509 | Asked about a workflow by name it answers iff that workflow exists, no other is open and it can be read, with the same action |
| Refusals.ChosenIsReady | src/sp1execution/execution/broker_executor_v04.py:459-983 | In every state of a run recovery answers, and what it chooses is never refused as not ready for its phase, whatever the outside answers, except a buy estimated above the cash at hand and one cent |
| DearBuy.StuckForGood | src/sp1execution/execution/broker_executor_v04.py:518-533 | Once the next buy is estimated above the cash, no cycle with any answers changes anything any more |
| DearBuy.DearBuyIsReached | src/sp1execution/execution/broker_executor_v04.py:518-533 | A run from an empty store on which a first buy costs more than its estimate and leaves the workflow so |
| CycleRuns.NothingAfterActive | src/sp1execution/execution/broker_executor_v04.py:459-594 | Once a workflow has left ACTIVE its record never changes again and nothing more is POSTed for it; legs never return to PLANNED or lose an order id |
| CycleRuns.CycleTakesSteps | src/sp1execution/execution/cycle_v04.py:683-836 | A cycle, whatever is answered from outside, is a sequence of the allowed steps |
| ExecutionKeeps.StepKeepsInv | src/sp1execution/execution/workflow_v04.py:167-766 | Every allowed step keeps the coupling of machine, workflow, legs, cash and journal keys |
| ExecutionInvariant.Advances | src/sp1execution/execution/workflow_v04.py:116-164 | An advancing transition of the live workflow always finds its key fresh, commits, moves the machine and keeps the invariant |
| ExecutionInvariant.Repeats | src/sp1execution/execution/workflow_v04.py:130-138 | A PARTIAL or PENDING transition always commits although its key may be a replay; the machine stays where it was iff the key is journaled, and else moves to the named state |
| SnapshotLabel.SellLabel | src/sp1execution/execution/workflow_v04.py:479-570 | The snapshot of a SELL reconciliation names another state than the machine iff it names PARTIAL_FILL or SELL_PENDING, that key was journaled before, and the machine is elsewhere |
| SnapshotLabel.BuyLabel | src/sp1execution/execution/broker_executor_v04.py:240-300 | The same for BUY progress: only a journaled key of a workflow that stays ACTIVE leaves the machine behind |
| SnapshotLabel.LabelRunsAhead | src/sp1execution/execution/workflow_v04.py:530-570 | After PARTIAL, PENDING and PARTIAL the snapshot says PARTIAL_FILL and the machine SELL_PENDING |
| ExecutionInvariant.FreshAdvance | src/sp1execution/execution/workflow_v04.py:130-138 | No key that would take the live workflow further is in the journal |
| ExecutionKeeps.MarkingSellKeeps | src/sp1execution/execution/workflow_v04.py:479-570 | A SELL reconciliation with any statuses keeps the invariant |
| ExecutionKeeps.PersistingKeeps | src/sp1execution/execution/broker_executor_v04.py:247-297 | BUY progress, whatever the broker reported, always commits and keeps the invariant |
| ExecutionKeeps.InstallingKeeps | src/sp1execution/execution/workflow_v04.py:573-672 | Installing the buys keeps the invariant, cash boundary included |
| CycleSteps.SubmitCurrentSteps | src/sp1execution/execution/broker_executor_v04.py:459-594 | Submission with any broker answers takes only allowed steps |
| CycleSteps.ReconcileSteps | src/sp1execution/execution/broker_executor_v04.py:772-983 | Reconciliation with any broker reports and fills takes only allowed steps |
| PostOrder.StepKeepsPosts | src/sp1execution/execution/broker_executor_v04.py:541-588 | Every step keeps each leg POSTed at most once and no SELL after a BUY of its workflow |
| BuySequence.EveryPost | src/sp1execution/execution/broker_executor_v04.py:498-560 | Every POST of every run is for a leg with a durable intent and no order id, not POSTed before, in an ACTIVE workflow; for a BUY every other leg is filled or not yet submitted |
| BuysInFlight.OneBuyInFlight | src/sp1execution/execution/broker_executor_v04.py:772-998 | In every run, stopped anywhere and whatever is answered: buy legs stay filled ones, then at most one open, then planned ones iff every BUY reconciliation that returns reports each recorded fill FILLED again or some submitted buy FAILED or UNKNOWN; and at most one buy is open at all times iff no such answer without FAILED or UNKNOWN leaves two submitted buys unfilled |
| BuysInFlight.CycleHolds | src/sp1execution/execution/broker_executor_v04.py:871-998 | The same for one cycle from any reachable state, stopped after any of its commits |
| FillTakenBack.TwoBuysInFlight | src/sp1execution/execution/broker_executor_v04.py:871-998 | A run of six cycles from an empty store after which two buys are in flight at once: the first is reported FILLED, the second is sent, then both are reported PENDING |
| CashBound.CashNeverBelowOneCent | src/sp1execution/execution/broker_executor_v04.py:518-533 | In every state of every run, if no buy order has cost more than its estimate, cash while buying is at least minus one cent, however many legs there are |
| CashBound.EveryRunCovers | src/sp1execution/execution/workflow_v04.py:597-628 | While buying, cash plus what the orders have cost plus one cent covers the sum of the estimates |
| ExecutionJournal.EveryRunJournaled | src/sp1execution/execution/workflow_v04.py:140-164 | Machine revision is the first revision plus journal rows plus ledger rows; EXECUTION rows chain from IDLE to the present state; no fill and no journal key is there twice |
| ConcurrentSubmit.AtMostOncePost | src/sp1execution/execution/broker_executor_v04.py:616-669 | For any number of processes, interleaving, answers and crashes, with the file lock each leg is POSTed at most once, only with a durable intent, and no leg returns to PLANNED |
| ConcurrentSubmit.IntentBeforePost | src/sp1execution/execution/workflow_v04.py:342-369 | At the moment of a POST the intent of that leg is already durable |
| ConcurrentSubmit.WithoutLockTwice | src/sp1execution/execution/workflow_v04.py:361-362 | Without the lock two processes POST one leg twice, because a recorded intent is passed over in silence |
| CycleDriver.RunCycle | src/sp1execution/execution/cycle_v04.py:683-836 | The in-place cycle goes through exactly the worlds of its trace and returns its outcome; CycleMakes.CycleDoes says what they are |
| CycleMakes.CycleDoes | src/sp1execution/execution/cycle_v04.py:683-836 | Any cycle of a run, with any answers: a complete workflow without its control rows gets them or the cycle raises; otherwise the cycle does what recovery chose and nothing else: starts, submits the queue, reconciles as reported, installs the replanned buys iff they fit the cash, or creates and starts a planned workflow iff it is sound and new |
| Completion.EveryRebalanceEnds | src/sp1execution/execution/cycle_v04.py:683-836 | From any state of a run a live workflow completes after some number of cycles, however many buys the replan calls for and whatever the fills, as long as no cycle raises, orders may go out, and every order out is reported FILLED |
| Completion.CycleAdvances | src/sp1execution/execution/cycle_v04.py:683-836 | Each such cycle moves the workflow to a later phase, or leaves strictly less to do in the same one, or completes it |
| CycleDriver.ClassifyRecovery | src/sp1execution/execution/recovery_v04.py:244-509 | The in-place classification answers as DecisionTable.ClassifyTable and ClassifyNamed say, and makes only an ambiguous intent durable |
| CycleDriver.SubmitCurrentPhase | src/sp1execution/execution/broker_executor_v04.py:459-594 | Goes through exactly the worlds of its trace: intent, POST, acceptance, leg by leg; Submissions.SubmitMakes says where they end |
| Submissions.SubmitMakes | src/sp1execution/execution/broker_executor_v04.py:459-594 | What recovery submits goes out exactly: every planned sell in order, or the first planned buy, is POSTed up to the first answer without an order id; the legs before it are accepted under the ids answered, that one keeps its intent and stops the workflow, and nothing else changes |
| CycleDriver.ReconcileCurrentPhase | src/sp1execution/execution/broker_executor_v04.py:772-983 | Goes through exactly the worlds of its trace: fills one by one, then the statuses; Reconciliation.ReconcileMakes says where they end |
| Reconciliation.ReconcileMakes | src/sp1execution/execution/broker_executor_v04.py:772-983 | Whatever the broker answered: a finished reconciliation, SELL or BUY, has grown the ledger by exactly the rows of the fills reported for submitted legs, none twice, moved cash and fees by their sums, given exactly the submitted legs the statuses reported, and put the workflow where these call for; it stops for the cash iff every buy out is filled and cash is below the boundary |
| Reconciliation.ReconcileFinishes | src/sp1execution/execution/broker_executor_v04.py:772-983 | In a run a reconciliation finishes iff the phase has a submitted leg, no unanswered intent and no planned sell, the broker could be read, every record is of the side with fills that can be booked, none contradicts another or the ledger, no two orders share an id, and with every order reported FILLED the positions match |
| ExecutionStores.ExecutionStore.SetExecutionState | src/sp1execution/execution/workflow_v04.py:116-164 | Moves the machine and journals the key, replays in silence, or raises and changes nothing |
| TransactionAnswers.MoveAnswers | src/sp1execution/execution/workflow_v04.py:116-164 | For any store with unique keys a move of the machine is accepted iff cash and debt tie, nothing stays ACTIVE on an idle machine, and the key is new or led to the same state; it journals one row iff the key is new and the state differs, and else changes nothing |
| ExecutionStores.ExecutionStore.CreateWorkflow | src/sp1execution/execution/workflow_v04.py:167-275 | Commits the specified creation or replay, or rolls back |
| ExecutionStores.ExecutionStore.StartWorkflow | src/sp1execution/execution/workflow_v04.py:278-339 | Commits the specified start, or rolls back |
| ExecutionStores.ExecutionStore.RecordLegIntent | src/sp1execution/execution/workflow_v04.py:342-369 | Commits the intent of a planned leg of the current phase, or raises |
| TransactionAnswers.IntentAnswers | src/sp1execution/execution/workflow_v04.py:342-369 | For any store an intent is recorded iff the leg is of the phase and planned, or has its intent already, and nothing else changes |
| ExecutionStores.ExecutionStore.RecordBrokerAcceptance | src/sp1execution/execution/workflow_v04.py:372-409 | Commits the order id after an intent, replays the same id, or raises |
| TransactionAnswers.AcceptanceAnswers | src/sp1execution/execution/workflow_v04.py:372-409 | For any store an order id is recorded iff the leg has its intent, or was accepted under the same id, and nothing else changes |
| ExecutionStores.ExecutionStore.RequireReconciliation | src/sp1execution/execution/workflow_v04.py:412-456 | Commits the stop for an ambiguous intent and says whether it did |
| ExecutionStores.ExecutionStore.MarkSellReconciliationResult | src/sp1execution/execution/workflow_v04.py:479-570 | Commits statuses, workflow and machine together, or rolls back |
| ExecutionStores.ExecutionStore.InstallBuyLegs | src/sp1execution/execution/workflow_v04.py:573-672 | Commits the legs within realised cash, completes without legs, or rolls back |
| ExecutionStores.ExecutionStore.MarkBuyReconciliationResult | src/sp1execution/execution/workflow_v04.py:675-766 | Commits statuses, workflow and machine together, or rolls back |
| ExecutionStores.ExecutionStore.PersistBuyProgress | src/sp1execution/execution/broker_executor_v04.py:247-297 | Commits the submitted legs, workflow and machine together, or rolls back |
| ExecutionStores.ExecutionStore.ApplyFillEvent | src/sp1execution/state/capital_v04.py:267-393 | Commits a new fill, passes over the same one, or raises and changes nothing |
| ExecutionStores.ExecutionStore.TransitionState | src/sp1execution/state/transitions_v04.py:245-427 | Commits a control row only when IDLE with no ACTIVE workflow, replays in silence, or rolls back |
| TransactionAnswers.ControlAnswers | src/sp1execution/state/transitions_v04.py:245-427 | For any store with unique keys a control row is written iff its dimension allows it, the machine idles, nothing is ACTIVE and cash and debt tie; journaled before, it is accepted iff it says the same, and changes nothing |
| Capital.Confluence | src/sp1execution/state/capital_v04.py:267-414 | Any two delivery sequences write the same set of ledger rows iff the first delivery of every fill is the same in both, whatever the order, the repetitions and the contradictions, and then end in the same cash, debt, fees and revision |
| Capital.Answered | src/sp1execution/state/capital_v04.py:267-393 | A delivery is refused iff it contradicts the first delivery of its fill, passed over if it repeats it, and written if it is the first |
| Capital.ConsistentConfluence | src/sp1execution/state/capital_v04.py:267-414 | Two consistent delivery sequences with the same fills, in any order and with any repetitions, end in the same account with exactly the distinct deliveries as ledger rows |
| Capital.EveryDeliveryKeeps | src/sp1execution/state/capital_v04.py:267-393 | After any deliveries cash is the start plus the ledger deltas, fees and revision likewise, debt is what cash lacks, fills are distinct, and the ledger is exactly the first delivery of every fill |
| Capital.OrderEvents | src/sp1execution/state/capital_v04.py:68-166 | An order is normalised iff it is a buy or a sell and every fill of it can be booked; there is then one event for each fill of the order, the fills as a multiset, by time and then id, each of its order, side, cents and fees |
| Capital.NormalizedFill | src/sp1execution/state/capital_v04.py:93-121 | A fill is normalised iff it is in euro throughout, has a net value and no exchange rate that is not positive; its event is the only one with its key and side, its net value to the nearest cent with the sign of the side, and its charges to the nearest cent, halves up |
| Capital.FeeCostOfCharges | src/sp1execution/state/capital_v04.py:99-121 | Fee costs add up over the fee rows, a charge costs its amount, and credits cost nothing |
| Capital.NormalizeFills | src/sp1execution/state/capital_v04.py:68-166 | The loop over the sorted fills computes the events that OrderEvents pins, or the error |
| History.SplitInvariance | src/sp1execution/broker/history_v04.py:216-248 | Any split of the items into pages gives the records of one page, or fails as it does, when ordered magnitudes are equal or further apart than the tolerance |
| History.SameItemsSameRecords | src/sp1execution/broker/history_v04.py:216-248 | Two chains of pages that split the same items differently fetch the same records |
| History.FetchIsPages | src/sp1execution/broker/history_v04.py:227-246 | A chain within the page limit fetches the records of its pages; a loop or a longer chain fails with that error, or with an earlier conflict of its pages |
| History.ChainWalks | src/sp1execution/broker/history_v04.py:227-246 | A chain is the pages of a walk from the first path along the paths the pages name, none twice: to a page that names none within the limit, or stopped at a path it has been to, or at a new one beyond the limit |
| History.FetchHistoryRecords | src/sp1execution/broker/history_v04.py:216-248 | The loop terminates and computes the specified fetch |
| History.MergeAssociates | src/sp1execution/broker/history_v04.py:161-191 | Three snapshots merged either way round give the same record, or fail both ways |
| History.MergedRecord | src/sp1execution/broker/history_v04.py:161-191 | The record of an order is its last fullest snapshot with the union of all fills |
| HistorySplits.EverySplitSucceedsIff | src/sp1execution/broker/history_v04.py:148-248 | Every split of the items into pages succeeds iff snapshots of one order have one identity wherever a split can make them meet and no two state a fill differently |
| HistorySplits.SplitNeverMattersIff | src/sp1execution/broker/history_v04.py:148-248 | Every split gives what one page gives iff, when one page succeeds, the snapshots agree wherever they can meet, and, when it fails, no split succeeds |
| HistorySplits.SuccessfulSplitsAgree | src/sp1execution/broker/history_v04.py:161-248 | Two splits of the same items that both succeed give the same records, with no condition |
| HistorySplits.FetchesAgree | src/sp1execution/broker/history_v04.py:216-248 | Two chains of pages over the same items fetch the same records if both succeed, and both succeed if the snapshots agree wherever they can meet |
| HistorySplits.ToleranceMatters | src/sp1execution/broker/history_v04.py:148-192 | Three snapshots, each within the tolerance of the next, that one page accepts and two pages refuse, and three with the opposite outcome; merging is not associative on them |
| History.ParseHistoryPage | src/sp1execution/broker/history_v04.py:194-213 | The loop over the items computes the merged records or error |
| Planner.ReplanBound | src/sp1execution/engine/planner.py:103-140 | Without sells, total BUY notional is at most the buffer times cash plus nav times the weight excess plus unsold overweight, for any number of instruments |
| Planner.NotionalRefusalCannotFire | src/sp1execution/execution/workflow_v04.py:620-628 | With weights of at most one and nothing above target, install_buy_legs never refuses the planned notional |
| Planner.InvestedIsTargeted | src/sp1execution/execution/broker_executor_v04.py:1033-1044 | Summed over targets or over quotes, long holdings that are all targeted are worth the same |
| Planner.PlanOrders | src/sp1execution/engine/planner.py:88-140 | The loops compute the orders that PlannedOrders.OrdersPlanned pins, or the error |
| PlannedOrders.OrdersPlanned | src/sp1execution/engine/planner.py:88-140 | Orders are planned iff the NAV is positive, the weights sum to one, the rate serves the quotes, prices are positive and every target is quoted; there is then one for exactly the targets whose missing value is out of tolerance and worth a ten-thousandth of a unit, sells first and else in the order of the targets, each sized down to whole ten-thousandths from all of an excess or the buffered part of what is missing |
| PlannedOrders.NothingOversold | src/sp1execution/engine/planner.py:115-130 | With weights that are not negative no sell exceeds what is held |
| PhysicalTarget.Conserves | src/sp1execution/recovery/physical_target_v01.py:248-640 | The sleeve reaches its target, the reserve is not overdrawn, no symbol is sold beyond its holding, and SP2, recovery and reserve add up to the NAV exactly, except that an increase whose need beyond the reserve is positive and at most the cut-off adds that need |
| PhysicalTarget.PlanIs | src/sp1execution/recovery/physical_target_v01.py:248-640 | There is a plan iff the weight is in range, no symbol stands twice, nothing is negative, the NAV is positive and a decrease has usable return weights; an increase takes the reserve first and sells the rest in proportion to the holdings, a decrease leaves the reserve and buys each symbol its share of the return weights, and within the cut-off nothing moves |
| PhysicalTarget.OnlyReturnWeightsFail | src/sp1execution/recovery/physical_target_v01.py:420-470 | The insufficient-SP2, no-positive-SP2 and allocation errors are unreachable: with usable inputs only the return weights of a decrease can fail |
| PhysicalTarget.AllocationIsShare | src/sp1execution/recovery/physical_target_v01.py:138-185 | With weights summing to one every symbol, the last included, gets exactly its share |
| PhysicalTarget.SalesWithinHoldings | src/sp1execution/recovery/physical_target_v01.py:188-204 | Proportional sales sum to the need and never exceed a holding |
| PhysicalTarget.AllocateExact | src/sp1execution/recovery/physical_target_v01.py:138-185 | The loop with a running remainder computes the specified allocation |


## Left out

- Control finalization of a changed Top-2 set: the step is modelled as a control transition that may be refused, and nothing is proved about its success, because the code sends the new mix while the old membership is still active and refuses it.
- Restart from the execution session after a crash inside ingest: crash properties are per operation, as the intended repair is to ingest the same event again.
- Reconciliation or classification running beside a submitter: the whole-cycle lock excludes it; only submission is modelled concurrently.
- Refinement.ReplayMeaning: requires that no ladder signal follows a close the dispatcher takes for the recovery, which Timeline.SignalsPrecedeRecoveryAtScale gives for every history with closes of at least 1e-8; below that the prices are of the size of the tolerance, the dispatcher takes a crash close itself for the recovery, and TinyPrices.TinyPricesDisagree shows the statement false without the requirement.
- Refinement.OnlineRefinesBatch: the same requirement.
- Refinement.ReplayIs: the same requirement, as part of its time line.
- Refinement.SessionStep: the same requirement, as part of its time line.
- DelayLine.DelayLineTarget: the same requirement.
- DelayLine.ClockNeverMoves: the same requirement.
- DelayLine.SnapshotsPass: the same requirement.
- Dates, time zones, session windows and quote freshness: session positions and guards that may refuse.
- JSON, SHA-256 and identifiers: payloads and ids are values with equality.
- IEEE floats and 28-digit decimals: exact reals, and whole cents in the ledger.
- The state of a reconciled order is whatever the broker side answers; how it is read off a record (`canonical_state`, `assert_expected_order`) and the parsing of items are not modelled.
- The first read of positions into a quantity per ticker, and the quote universe checks of the replan: the replan takes holdings and quotes as values.
- Entry, strategy and membership dimensions of the machine row: a control transition is a key, a content and whether its dimension allows it.
- Timestamps, and the finer fields of a transition payload.
- Network and file access, the CLI, the forward runner, the legacy v0.3 journal, schema creation and migration, and the constant safety flags.
