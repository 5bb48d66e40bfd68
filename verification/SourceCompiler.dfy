// compile_source_cycles of src/sp1execution/recovery/causal_compiler_v01.py.
// A session is its position in the canonical calendar, so a history is the
// sequence of its closes and is strictly ordered by construction.
module SourceCompiler {
  import opened Common
  import opened Robust

  datatype EventKind = EntryOrScale | HandoffEvent

  datatype SourceEvent = SourceEvent(
    cycleId: nat, kind: EventKind, signal: nat, execution: nat,
    oldAthDate: nat, oldAth: real, drawdown: real, target: int)

  // Both the builder under construction and the finished source cycle.
  datatype SourceCycle = SourceCycle(
    cycleId: nat, oldAthDate: nat, oldAth: real, events: seq<SourceEvent>, recovery: Option<nat>)

  datatype CompilerError =
    | EmptyHistory
    | NonPositiveClose
    | BuilderStillActive
    | MissingCausalAth
    | ScaleWithoutCycle
    | EventLacksTPlusOne
    | TargetDiffersFromLadder
    | HandoffWithoutCycle
    | HandoffLacksTPlusOne
    | RearmWithoutCycle
    | CalendarTooShort

  datatype Compiler = Compiler(
    robust: RobustView, runningAth: Option<(nat, real)>,
    active: Option<SourceCycle>, completed: seq<SourceCycle>, counter: nat)

  const START := Compiler(INITIAL, None, None, [], 0)

  predicate PositiveCloses(closes: seq<real>) {
    forall i :: 0 <= i < |closes| ==> closes[i] > 0.0
  }

  // One row of the compiler loop; sessionCount is the length of the calendar.
  function Step(st: Compiler, index: nat, price: real, sessionCount: nat): (r: Result<Compiler, CompilerError>)
    requires Valid(st.robust) && price > 0.0
    ensures r.Ok? ==> Valid(r.value.robust)
  {
    var ath := if st.runningAth.None? || price > st.runningAth.value.1 then Some((index, price)) else st.runningAth;
    var (robust, decision) := Observe(st.robust, price);
    match decision.signal
    case Rotate =>
      if st.robust.mode.Normal? && st.active.Some? then Err(BuilderStillActive)
      else if st.robust.mode.Normal? && (robust.oldPeak.None? || ath.None?) then Err(MissingCausalAth)
      else
        var counter := if st.robust.mode.Normal? then st.counter + 1 else st.counter;
        var active :=
          if st.robust.mode.Normal?
          then Some(SourceCycle(counter, ath.value.0, robust.oldPeak.value, [], None))
          else st.active;
        if active.None? then Err(ScaleWithoutCycle)
        else if index + 1 >= sessionCount then Err(EventLacksTPlusOne)
        else if robust.oldPeak.None? then Err(MissingCausalAth)
        else
          var dd := DrawdownFraction(price, robust.oldPeak.value);
          if dd > 1.0 || decision.target != LadderTarget(dd) then Err(TargetDiffersFromLadder)
          else
            var c := active.value;
            var e := SourceEvent(c.cycleId, EntryOrScale, index, index + 1, c.oldAthDate, c.oldAth, dd, decision.target);
            Ok(Compiler(robust, ath, Some(c.(events := c.events + [e])), st.completed, counter))
    case Handoff =>
      if st.active.None? then Err(HandoffWithoutCycle)
      else if index + 1 >= sessionCount then Err(HandoffLacksTPlusOne)
      else if robust.oldPeak.None? then Err(MissingCausalAth)
      else
        var c := st.active.value;
        var dd := DrawdownFraction(price, robust.oldPeak.value);
        var e := SourceEvent(c.cycleId, HandoffEvent, index, index + 1, c.oldAthDate, c.oldAth, dd, 0);
        Ok(Compiler(robust, ath, Some(c.(events := c.events + [e])), st.completed, st.counter))
    case Rearm =>
      if st.active.None? then Err(RearmWithoutCycle)
      else
        Ok(Compiler(robust, ath, None, st.completed + [st.active.value.(recovery := Some(index))], st.counter))
    case NoAction =>
      Ok(Compiler(robust, ath, st.active, st.completed, st.counter))
  }

  // The compiler after the first t rows.
  function Fold(closes: seq<real>, sessionCount: nat, t: nat): (r: Result<Compiler, CompilerError>)
    requires t <= |closes| && PositiveCloses(closes)
    ensures r.Ok? ==> Valid(r.value.robust)
  {
    if t == 0 then Ok(START)
    else
      var st :- Fold(closes, sessionCount, t - 1);
      Step(st, t - 1, closes[t - 1], sessionCount)
  }

  function Cycles(st: Compiler): seq<SourceCycle> {
    st.completed + if st.active.Some? then [st.active.value] else []
  }

  // The compiled cycles of a whole history, or the error the compiler raises.
  function SourceCycles(closes: seq<real>): Result<seq<SourceCycle>, CompilerError> {
    if |closes| == 0 then Err(EmptyHistory)
    else if !PositiveCloses(closes) then Err(NonPositiveClose)
    else
      var st :- Fold(closes, |closes|, |closes|);
      Ok(Cycles(st))
  }

  /* ---- The shape of what comes out ---- */

  predicate HandedOff(c: SourceCycle) {
    |c.events| > 0 && Last(c.events).kind.HandoffEvent?
  }

  // The ladder events of a cycle: everything before its handoff.
  function Ladder(c: SourceCycle): seq<SourceEvent> {
    if HandedOff(c) then DropLast(c.events) else c.events
  }

  function First(c: SourceCycle): nat {
    if |c.events| > 0 then c.events[0].signal else 0
  }

  ghost predicate EventFits(e: SourceEvent, c: SourceCycle, closes: seq<real>, t: nat, sessionCount: nat)
    requires t <= |closes| && PositiveCloses(closes)
  {
    && e.cycleId == c.cycleId && e.oldAthDate == c.oldAthDate && e.oldAth == c.oldAth > 0.0
    && e.signal < t && e.execution == e.signal + 1 < sessionCount
  }

  ghost predicate LowUntilHandoff(c: SourceCycle, closes: seq<real>) {
    HandedOff(c) ==>
      forall u :: First(c) <= u < Last(c.events).signal && u < |closes| ==> closes[u] <= 0.865 * c.oldAth
  }

  // Ladder events with strictly rising sessions and targets, then at most one handoff.
  ghost predicate CycleShape(c: SourceCycle, closes: seq<real>, t: nat, sessionCount: nat)
    requires t <= |closes| && PositiveCloses(closes)
  {
    var ladder := Ladder(c);
    && |ladder| > 0
    && c.oldAth > 0.0
    && (forall j :: 0 <= j < |c.events| ==> EventFits(c.events[j], c, closes, t, sessionCount))
    && (forall j :: 0 <= j < |ladder| ==>
          ladder[j].kind.EntryOrScale? && ladder[j].target == LadderTarget(ladder[j].drawdown) > 0)
    && (forall j, k :: 0 <= j < k < |c.events| ==> c.events[j].signal < c.events[k].signal)
    && (forall j, k :: 0 <= j < k < |ladder| ==> ladder[j].target < ladder[k].target)
    && (forall u :: First(c) <= u <= Last(ladder).signal ==> closes[u] <= 0.865 * c.oldAth)
    && LowUntilHandoff(c, closes)
  }

  // The old ATH is recovered at the first close at or above it after the handoff.
  ghost predicate RecoveryShape(c: SourceCycle, closes: seq<real>, t: nat)
    requires t <= |closes|
  {
    if |Ladder(c)| == 0 then false
    else if c.recovery.Some? then
      && HandedOff(c)
      && Last(c.events).signal < c.recovery.value < t
      && closes[c.recovery.value] >= c.oldAth
      && (forall u :: Last(c.events).signal < u < c.recovery.value ==> closes[u] < c.oldAth)
    else if HandedOff(c) then
      forall u :: Last(c.events).signal < u < t ==> closes[u] < c.oldAth
    else
      forall u :: First(c) <= u < t ==> closes[u] <= 0.865 * c.oldAth
  }

  ghost predicate Separated(cycles: seq<SourceCycle>) {
    forall i, j :: 0 <= i < j < |cycles| ==>
      cycles[i].recovery.Some? && cycles[i].recovery.value < First(cycles[j])
  }

  ghost predicate CompiledShape(cycles: seq<SourceCycle>, closes: seq<real>, t: nat, sessionCount: nat)
    requires t <= |closes| && PositiveCloses(closes)
  {
    && (forall i :: 0 <= i < |cycles| ==> cycles[i].cycleId == i + 1)
    && (forall i :: 0 <= i < |cycles| ==> CycleShape(cycles[i], closes, t, sessionCount))
    && (forall i :: 0 <= i < |cycles| ==> RecoveryShape(cycles[i], closes, t))
    && Separated(cycles)
  }

  ghost predicate FoldInv(st: Compiler, closes: seq<real>, t: nat, sessionCount: nat)
    requires t <= |closes| && PositiveCloses(closes)
  {
    && Valid(st.robust)
    && (t == 0 ==> st == START)
    && (t > 0 ==> st.robust.oldPeak.Some? && st.runningAth.Some?)
    && (st.robust.mode.Normal? <==> st.active.None?)
    && st.counter == |Cycles(st)|
    && CompiledShape(Cycles(st), closes, t, sessionCount)
    && (forall i :: 0 <= i < |st.completed| ==> st.completed[i].recovery.Some?)
    && (st.active.Some? ==>
          var c := st.active.value;
          && c.recovery.None? && |c.events| > 0
          && c.oldAth == st.robust.oldPeak.value
          && (st.robust.mode.Crash? <==> !HandedOff(c))
          && (st.robust.mode.Crash? ==> Last(c.events).target == st.robust.target))
  }

  lemma LaterShape(c: SourceCycle, closes: seq<real>, t: nat, sessionCount: nat)
    requires t < |closes| && PositiveCloses(closes)
    requires CycleShape(c, closes, t, sessionCount)
    ensures CycleShape(c, closes, t + 1, sessionCount)
    ensures c.recovery.Some? && RecoveryShape(c, closes, t) ==> RecoveryShape(c, closes, t + 1)
  {
    forall j | 0 <= j < |c.events| ensures EventFits(c.events[j], c, closes, t + 1, sessionCount) {
      assert EventFits(c.events[j], c, closes, t, sessionCount);
    }
  }

  lemma LaterShapes(st: Compiler, closes: seq<real>, t: nat, sessionCount: nat)
    requires t < |closes| && PositiveCloses(closes)
    requires FoldInv(st, closes, t, sessionCount)
    ensures CompiledShape(st.completed, closes, t + 1, sessionCount)
  {
    forall i | 0 <= i < |st.completed|
      ensures CycleShape(st.completed[i], closes, t + 1, sessionCount)
      ensures RecoveryShape(st.completed[i], closes, t + 1)
      ensures st.completed[i].cycleId == i + 1
    {
      assert Cycles(st)[i] == st.completed[i];
      LaterShape(st.completed[i], closes, t, sessionCount);
    }
    forall i, j | 0 <= i < j < |st.completed|
      ensures st.completed[i].recovery.Some? && st.completed[i].recovery.value < First(st.completed[j])
    {
      assert Cycles(st)[i] == st.completed[i] && Cycles(st)[j] == st.completed[j];
    }
  }

  // Appending the newest cycle to finished ones keeps the overall shape.
  lemma WithNewest(done: seq<SourceCycle>, c: SourceCycle, closes: seq<real>, t: nat, sessionCount: nat)
    requires t <= |closes| && PositiveCloses(closes)
    requires CompiledShape(done, closes, t, sessionCount)
    requires forall i :: 0 <= i < |done| ==> done[i].recovery.Some? && done[i].recovery.value < First(c)
    requires CycleShape(c, closes, t, sessionCount) && RecoveryShape(c, closes, t) && c.cycleId == |done| + 1
    ensures CompiledShape(done + [c], closes, t, sessionCount)
  {
  }

  // A ladder event extends the running crash by a later, deeper, larger event.
  lemma RotateExtends(c: SourceCycle, e: SourceEvent, closes: seq<real>, t: nat, sessionCount: nat)
    requires t < |closes| && PositiveCloses(closes)
    requires c.oldAth > 0.0 && !HandedOff(c) && c.recovery.None?
    requires |c.events| > 0 ==> CycleShape(c, closes, t, sessionCount) && RecoveryShape(c, closes, t)
    requires |c.events| > 0 ==> Last(c.events).target < e.target
    requires e.kind.EntryOrScale? && e.signal == t && e.target == LadderTarget(e.drawdown) > 0
    requires EventFits(e, c, closes, t + 1, sessionCount)
    requires closes[t] <= 0.865 * c.oldAth
    ensures var c' := c.(events := c.events + [e]);
            && CycleShape(c', closes, t + 1, sessionCount) && RecoveryShape(c', closes, t + 1)
            && First(c') == (if |c.events| > 0 then First(c) else t)
  {
    var c' := c.(events := c.events + [e]);
    assert Last(c'.events) == e;
    assert Ladder(c') == c.events + [e];
    assert |c.events| > 0 ==> Ladder(c) == c.events;
    forall j | 0 <= j < |c'.events| ensures EventFits(c'.events[j], c', closes, t + 1, sessionCount) {
      if j < |c.events| {
        assert EventFits(c.events[j], c, closes, t, sessionCount);
      }
    }
    forall u | First(c') <= u <= t ensures closes[u] <= 0.865 * c.oldAth {
      if u < t {
        assert |c.events| > 0 && First(c) <= u;
      }
    }
  }

  lemma HandoffExtends(c: SourceCycle, e: SourceEvent, closes: seq<real>, t: nat, sessionCount: nat)
    requires t < |closes| && PositiveCloses(closes)
    requires CycleShape(c, closes, t, sessionCount) && RecoveryShape(c, closes, t) && !HandedOff(c) && c.recovery.None?
    requires e.kind.HandoffEvent? && e.signal == t
    requires EventFits(e, c, closes, t + 1, sessionCount)
    ensures var c' := c.(events := c.events + [e]);
            && CycleShape(c', closes, t + 1, sessionCount) && RecoveryShape(c', closes, t + 1)
            && HandedOff(c') && First(c') == First(c)
  {
    var c' := c.(events := c.events + [e]);
    assert Last(c'.events) == e;
    assert Ladder(c') == c.events == Ladder(c);
    forall j | 0 <= j < |c'.events| ensures EventFits(c'.events[j], c', closes, t + 1, sessionCount) {
      if j < |c.events| {
        assert EventFits(c.events[j], c, closes, t, sessionCount);
      }
    }
  }

  function Ath(st: Compiler, index: nat, price: real): Option<(nat, real)> {
    if st.runningAth.None? || price > st.runningAth.value.1 then Some((index, price)) else st.runningAth
  }

  // The builder a ladder event lands in: a new one from NORMAL, else the live one.
  function LadderBuilder(st: Compiler, index: nat, price: real): SourceCycle
    requires Valid(st.robust) && price > 0.0
    requires Observe(st.robust, price).1.signal.Rotate?
    requires st.robust.mode.Normal? || st.active.Some?
  {
    if st.robust.mode.Normal? then
      SourceCycle(st.counter + 1, Ath(st, index, price).value.0, Observe(st.robust, price).0.oldPeak.value, [], None)
    else st.active.value
  }

  function EventAt(c: SourceCycle, kind: EventKind, index: nat, drawdown: real, target: int): SourceEvent {
    SourceEvent(c.cycleId, kind, index, index + 1, c.oldAthDate, c.oldAth, drawdown, target)
  }

  lemma StepOnRotate(st: Compiler, index: nat, price: real, sessionCount: nat) returns (e: SourceEvent)
    requires Valid(st.robust) && price > 0.0
    requires Observe(st.robust, price).1.signal.Rotate?
    requires st.robust.mode.Normal? <==> st.active.None?
    ensures index + 1 >= sessionCount ==> Step(st, index, price, sessionCount) == Err(EventLacksTPlusOne)
    ensures Observe(st.robust, price).0.oldPeak.Some? && Observe(st.robust, price).0.oldPeak.value > 0.0
    ensures e.drawdown == DrawdownFraction(price, Observe(st.robust, price).0.oldPeak.value)
    ensures var c := LadderBuilder(st, index, price);
            && e == EventAt(c, EntryOrScale, index, e.drawdown, Observe(st.robust, price).0.target)
            && e.target == LadderTarget(e.drawdown) > 0
            && (index + 1 < sessionCount ==>
                  Step(st, index, price, sessionCount) ==
                  Ok(Compiler(Observe(st.robust, price).0, Ath(st, index, price), Some(c.(events := c.events + [e])),
                              st.completed, if st.robust.mode.Normal? then st.counter + 1 else st.counter)))
  {
    var robust := Observe(st.robust, price).0;
    RotateRaisesTarget(st.robust, price);
    LadderReached(price, robust.oldPeak.value);
    e := EventAt(LadderBuilder(st, index, price), EntryOrScale, index,
                 DrawdownFraction(price, robust.oldPeak.value), robust.target);
  }

  lemma StepOnHandoff(st: Compiler, index: nat, price: real, sessionCount: nat) returns (e: SourceEvent)
    requires Valid(st.robust) && price > 0.0
    requires Observe(st.robust, price).1.signal.Handoff? && st.active.Some?
    ensures index + 1 >= sessionCount ==> Step(st, index, price, sessionCount) == Err(HandoffLacksTPlusOne)
    ensures Observe(st.robust, price).0.oldPeak.Some? && Observe(st.robust, price).0.oldPeak.value > 0.0
    ensures e.drawdown == DrawdownFraction(price, Observe(st.robust, price).0.oldPeak.value)
    ensures var c := st.active.value;
            && e == EventAt(c, HandoffEvent, index, e.drawdown, 0)
            && (index + 1 < sessionCount ==>
                  Step(st, index, price, sessionCount) ==
                  Ok(Compiler(Observe(st.robust, price).0, Ath(st, index, price), Some(c.(events := c.events + [e])),
                              st.completed, st.counter)))
  {
    e := EventAt(st.active.value, HandoffEvent, index,
                 DrawdownFraction(price, Observe(st.robust, price).0.oldPeak.value), 0);
  }

  lemma StepOtherwise(st: Compiler, index: nat, price: real, sessionCount: nat)
    requires Valid(st.robust) && price > 0.0
    requires st.robust.mode.Normal? <==> st.active.None?
    ensures Observe(st.robust, price).1.signal.Rearm? ==>
              && st.active.Some?
              && Step(st, index, price, sessionCount) ==
                 Ok(Compiler(Observe(st.robust, price).0, Ath(st, index, price), None,
                             st.completed + [st.active.value.(recovery := Some(index))], st.counter))
    ensures Observe(st.robust, price).1.signal.NoAction? ==>
              Step(st, index, price, sessionCount) ==
              Ok(Compiler(Observe(st.robust, price).0, Ath(st, index, price), st.active, st.completed, st.counter))
  {
  }

  predicate NeedsTPlusOne(s: RobustView, price: real)
    requires Valid(s) && price > 0.0
  {
    Observe(s, price).1.signal.Rotate? || Observe(s, price).1.signal.Handoff?
  }

  // How the ladder machine moves, as far as the compiler is concerned.
  lemma ObserveFacts(s: RobustView, price: real)
    requires Valid(s) && price > 0.0
    ensures var (r, d) := Observe(s, price);
            && r.oldPeak.Some? && r.oldPeak.value > 0.0
            && (!s.mode.Normal? && !d.signal.Rearm? ==> r.oldPeak == s.oldPeak)
            && (d.signal.Rotate? ==> !s.mode.PostHandoff? && r.mode.Crash? && r.target > s.target)
            && (d.signal.Handoff? ==> s.mode.Crash? && r.mode.PostHandoff?)
            && (d.signal.Rearm? ==> s.mode.PostHandoff? && r.mode.Normal? && price >= s.oldPeak.value)
            && (d.signal.NoAction? ==> r.mode == s.mode && r.target == s.target)
            && (d.signal.NoAction? && s.mode.PostHandoff? ==> price < s.oldPeak.value)
            && (r.mode.Crash? ==> price <= 0.865 * r.oldPeak.value)
  {
    if Observe(s, price).0.mode.Crash? {
      CrashCloseIsLow(s, price);
    }
    if Observe(s, price).1.signal.Rotate? {
      RotateRaisesTarget(s, price);
    }
  }

  lemma NewestFacts(st: Compiler, closes: seq<real>, t: nat, sessionCount: nat)
    requires t < |closes| && PositiveCloses(closes)
    requires FoldInv(st, closes, t, sessionCount) && st.active.Some?
    ensures CycleShape(st.active.value, closes, t, sessionCount) && RecoveryShape(st.active.value, closes, t)
    ensures CycleShape(st.active.value, closes, t + 1, sessionCount)
    ensures forall i :: 0 <= i < |st.completed| ==> st.completed[i].recovery.Some? && st.completed[i].recovery.value < First(st.active.value)
    ensures st.active.value.cycleId == |st.completed| + 1
  {
    assert Cycles(st)[|st.completed|] == st.active.value;
    LaterShape(st.active.value, closes, t, sessionCount);
    forall i | 0 <= i < |st.completed| ensures st.completed[i].recovery.Some? && st.completed[i].recovery.value < First(st.active.value) {
      assert Cycles(st)[i] == st.completed[i];
    }
  }

  lemma CompletedInPast(st: Compiler, closes: seq<real>, t: nat, sessionCount: nat)
    requires t <= |closes| && PositiveCloses(closes)
    requires FoldInv(st, closes, t, sessionCount)
    ensures forall i :: 0 <= i < |st.completed| ==> st.completed[i].recovery.Some? && st.completed[i].recovery.value < t
  {
    forall i | 0 <= i < |st.completed| ensures st.completed[i].recovery.value < t {
      assert Cycles(st)[i] == st.completed[i];
      assert RecoveryShape(Cycles(st)[i], closes, t);
    }
  }

  // FoldInv is re-established for a state whose newest cycle is c.
  lemma InvWithActive(st: Compiler, c: SourceCycle, closes: seq<real>, t: nat, sessionCount: nat)
    requires t <= |closes| && PositiveCloses(closes) && t > 0
    requires st.active == Some(c) && CompiledShape(st.completed, closes, t, sessionCount)
    requires forall i :: 0 <= i < |st.completed| ==> st.completed[i].recovery.Some? && st.completed[i].recovery.value < First(c)
    requires CycleShape(c, closes, t, sessionCount) && RecoveryShape(c, closes, t)
    requires c.cycleId == |st.completed| + 1 == st.counter && c.recovery.None? && |c.events| > 0
    requires Valid(st.robust) && !st.robust.mode.Normal? && st.runningAth.Some? && c.oldAth == st.robust.oldPeak.value
    requires st.robust.mode.Crash? <==> !HandedOff(c)
    requires st.robust.mode.Crash? ==> Last(c.events).target == st.robust.target
    ensures FoldInv(st, closes, t, sessionCount)
  {
    hide CycleShape, RecoveryShape, Separated;
    WithNewest(st.completed, c, closes, t, sessionCount);
  }

  lemma InvIdle(st: Compiler, closes: seq<real>, t: nat, sessionCount: nat)
    requires t <= |closes| && PositiveCloses(closes) && t > 0
    requires st.active.None? && CompiledShape(st.completed, closes, t, sessionCount)
    requires forall i :: 0 <= i < |st.completed| ==> st.completed[i].recovery.Some?
    requires st.counter == |st.completed|
    requires Valid(st.robust) && st.robust.mode.Normal? && st.runningAth.Some? && st.robust.oldPeak.Some?
    ensures FoldInv(st, closes, t, sessionCount)
  {
    assert Cycles(st) == st.completed;
  }

  lemma InvFacts(st: Compiler, closes: seq<real>, t: nat, sessionCount: nat)
    requires t <= |closes| && PositiveCloses(closes)
    requires FoldInv(st, closes, t, sessionCount)
    ensures Valid(st.robust) && (st.robust.mode.Normal? <==> st.active.None?)
    ensures st.counter == |st.completed| + if st.active.Some? then 1 else 0
    ensures forall i :: 0 <= i < |st.completed| ==> st.completed[i].recovery.Some?
    ensures st.active.Some? ==>
              var c := st.active.value;
              && c.recovery.None? && |c.events| > 0 && c.cycleId == |st.completed| + 1
              && c.oldAth == st.robust.oldPeak.value
              && (st.robust.mode.Crash? <==> !HandedOff(c))
              && (st.robust.mode.Crash? ==> Last(c.events).target == st.robust.target)
  {
    if st.active.Some? {
      assert Cycles(st)[|st.completed|] == st.active.value;
    }
  }

  lemma RotateKeepsInv(st: Compiler, closes: seq<real>, t: nat, sessionCount: nat)
    requires t < |closes| <= sessionCount && PositiveCloses(closes) && t + 1 < sessionCount
    requires FoldInv(st, closes, t, sessionCount) && Observe(st.robust, closes[t]).1.signal.Rotate?
    ensures Step(st, t, closes[t], sessionCount).Ok?
    ensures FoldInv(Step(st, t, closes[t], sessionCount).value, closes, t + 1, sessionCount)
  {
    hide Step, Observe, FoldInv, CompiledShape, CycleShape, RecoveryShape;
    InvFacts(st, closes, t, sessionCount);
    var price := closes[t];
    var e := StepOnRotate(st, t, price, sessionCount);
    ObserveFacts(st.robust, price);
    LaterShapes(st, closes, t, sessionCount);
    CompletedInPast(st, closes, t, sessionCount);
    var c := LadderBuilder(st, t, price);
    if st.active.Some? {
      NewestFacts(st, closes, t, sessionCount);
    }
    assert c.cycleId == |st.completed| + 1;
    assert !HandedOff(c);
    var c' := c.(events := c.events + [e]);
    RotateExtends(c, e, closes, t, sessionCount);
    var st' := Step(st, t, price, sessionCount).value;
    assert Last(c'.events) == e;
    InvWithActive(st', c', closes, t + 1, sessionCount);
  }

  lemma HandoffKeepsInv(st: Compiler, closes: seq<real>, t: nat, sessionCount: nat)
    requires t < |closes| <= sessionCount && PositiveCloses(closes) && t + 1 < sessionCount
    requires FoldInv(st, closes, t, sessionCount) && Observe(st.robust, closes[t]).1.signal.Handoff?
    ensures Step(st, t, closes[t], sessionCount).Ok?
    ensures FoldInv(Step(st, t, closes[t], sessionCount).value, closes, t + 1, sessionCount)
  {
    hide Step, Observe, FoldInv, CompiledShape, CycleShape, RecoveryShape;
    InvFacts(st, closes, t, sessionCount);
    var price := closes[t];
    ObserveFacts(st.robust, price);
    var e := StepOnHandoff(st, t, price, sessionCount);
    LaterShapes(st, closes, t, sessionCount);
    NewestFacts(st, closes, t, sessionCount);
    var c := st.active.value;
    HandoffExtends(c, e, closes, t, sessionCount);
    var st' := Step(st, t, price, sessionCount).value;
    InvWithActive(st', c.(events := c.events + [e]), closes, t + 1, sessionCount);
  }

  lemma RearmKeepsInv(st: Compiler, closes: seq<real>, t: nat, sessionCount: nat)
    requires t < |closes| <= sessionCount && PositiveCloses(closes)
    requires FoldInv(st, closes, t, sessionCount) && Observe(st.robust, closes[t]).1.signal.Rearm?
    ensures Step(st, t, closes[t], sessionCount).Ok?
    ensures FoldInv(Step(st, t, closes[t], sessionCount).value, closes, t + 1, sessionCount)
  {
    hide Step, Observe, FoldInv, CompiledShape, CycleShape, RecoveryShape;
    InvFacts(st, closes, t, sessionCount);
    var price := closes[t];
    StepOtherwise(st, t, price, sessionCount);
    ObserveFacts(st.robust, price);
    LaterShapes(st, closes, t, sessionCount);
    NewestFacts(st, closes, t, sessionCount);
    var c := st.active.value;
    RearmShape(c, closes, t, sessionCount);
    assert st.counter == |st.completed| + 1;
    var st' := Step(st, t, price, sessionCount).value;
    WithNewest(st.completed, c.(recovery := Some(t)), closes, t + 1, sessionCount);
    forall i | 0 <= i < |st'.completed| ensures st'.completed[i].recovery.Some? {
      if i < |st.completed| {
        assert st'.completed[i] == st.completed[i];
      }
    }
    InvIdle(st', closes, t + 1, sessionCount);
  }

  lemma RearmShape(c: SourceCycle, closes: seq<real>, t: nat, sessionCount: nat)
    requires t < |closes| && PositiveCloses(closes)
    requires CycleShape(c, closes, t, sessionCount) && RecoveryShape(c, closes, t)
    requires c.recovery.None? && HandedOff(c) && closes[t] >= c.oldAth
    ensures var c' := c.(recovery := Some(t));
            CycleShape(c', closes, t + 1, sessionCount) && RecoveryShape(c', closes, t + 1)
            && First(c') == First(c) && c'.cycleId == c.cycleId
  {
    var c' := c.(recovery := Some(t));
    LaterShape(c, closes, t, sessionCount);
    assert Ladder(c') == Ladder(c);
    forall j | 0 <= j < |c'.events| ensures EventFits(c'.events[j], c', closes, t + 1, sessionCount) {
      assert EventFits(c.events[j], c, closes, t, sessionCount);
    }
  }

  lemma QuietKeepsInv(st: Compiler, closes: seq<real>, t: nat, sessionCount: nat)
    requires t < |closes| <= sessionCount && PositiveCloses(closes)
    requires FoldInv(st, closes, t, sessionCount) && Observe(st.robust, closes[t]).1.signal.NoAction?
    ensures Step(st, t, closes[t], sessionCount).Ok?
    ensures FoldInv(Step(st, t, closes[t], sessionCount).value, closes, t + 1, sessionCount)
  {
    hide Step, Observe, FoldInv, CompiledShape, CycleShape, RecoveryShape;
    InvFacts(st, closes, t, sessionCount);
    var price := closes[t];
    StepOtherwise(st, t, price, sessionCount);
    ObserveFacts(st.robust, price);
    LaterShapes(st, closes, t, sessionCount);
    if st.active.Some? {
      NewestFacts(st, closes, t, sessionCount);
      QuietShape(st.active.value, closes, t);
    }
    var st' := Step(st, t, price, sessionCount).value;
    if st.active.Some? {
      InvWithActive(st', st.active.value, closes, t + 1, sessionCount);
    } else {
      assert Cycles(st) == st.completed;
      InvIdle(st', closes, t + 1, sessionCount);
    }
  }

  lemma QuietShape(c: SourceCycle, closes: seq<real>, t: nat)
    requires t < |closes|
    requires RecoveryShape(c, closes, t) && c.recovery.None?
    requires if HandedOff(c) then closes[t] < c.oldAth else closes[t] <= 0.865 * c.oldAth
    ensures RecoveryShape(c, closes, t + 1)
  {
  }

  lemma StepKeepsInv(st: Compiler, closes: seq<real>, t: nat, sessionCount: nat)
    requires t < |closes| <= sessionCount && PositiveCloses(closes)
    requires FoldInv(st, closes, t, sessionCount)
    ensures Step(st, t, closes[t], sessionCount).Err? <==>
            t + 1 >= sessionCount && NeedsTPlusOne(st.robust, closes[t])
    ensures Step(st, t, closes[t], sessionCount).Err? ==>
            Step(st, t, closes[t], sessionCount).error in {EventLacksTPlusOne, HandoffLacksTPlusOne}
    ensures Step(st, t, closes[t], sessionCount).Ok? ==>
            FoldInv(Step(st, t, closes[t], sessionCount).value, closes, t + 1, sessionCount)
  {
    hide Step, Observe, CompiledShape;
    match Observe(st.robust, closes[t]).1.signal
    case Rotate =>
      if t + 1 < sessionCount {
        RotateKeepsInv(st, closes, t, sessionCount);
      } else {
        var _ := StepOnRotate(st, t, closes[t], sessionCount);
      }
    case Handoff =>
      if t + 1 < sessionCount {
        HandoffKeepsInv(st, closes, t, sessionCount);
      } else {
        ObserveFacts(st.robust, closes[t]);
        var _ := StepOnHandoff(st, t, closes[t], sessionCount);
      }
    case Rearm => RearmKeepsInv(st, closes, t, sessionCount);
    case NoAction => QuietKeepsInv(st, closes, t, sessionCount);
  }

  lemma StartInv(closes: seq<real>, sessionCount: nat)
    requires PositiveCloses(closes)
    ensures FoldInv(START, closes, 0, sessionCount)
  {
  }

  lemma PositiveAt(closes: seq<real>, t: nat)
    requires PositiveCloses(closes) && t < |closes|
    ensures closes[t] > 0.0
  {
  }

  // The compiler's consistency errors cannot happen: a positive history fails
  // only when its last close signals and so has no T+1 session.
  lemma {:induction false} FoldTotal(closes: seq<real>, sessionCount: nat, t: nat)
    requires t <= |closes| <= sessionCount && PositiveCloses(closes)
    ensures Fold(closes, sessionCount, t).Ok? ==> FoldInv(Fold(closes, sessionCount, t).value, closes, t, sessionCount)
    ensures t < sessionCount ==> Fold(closes, sessionCount, t).Ok?
    ensures Fold(closes, sessionCount, t).Err? ==>
            Fold(closes, sessionCount, t).error in {EventLacksTPlusOne, HandoffLacksTPlusOne}
  {
    hide Step, FoldInv, PositiveCloses, Valid;
    StartInv(closes, sessionCount);
    if t > 0 {
      PositiveAt(closes, t - 1);
      FoldTotal(closes, sessionCount, t - 1);
      StepKeepsInv(Fold(closes, sessionCount, t - 1).value, closes, t - 1, sessionCount);
    }
  }

  lemma CompilerIsTotal(closes: seq<real>)
    requires |closes| > 0 && PositiveCloses(closes)
    ensures Fold(closes, |closes|, |closes| - 1).Ok?
    ensures SourceCycles(closes).Err? <==>
            NeedsTPlusOne(Fold(closes, |closes|, |closes| - 1).value.robust, Last(closes))
    ensures SourceCycles(closes).Err? ==> SourceCycles(closes).error in {EventLacksTPlusOne, HandoffLacksTPlusOne}
    ensures SourceCycles(closes).Ok? ==> CompiledShape(SourceCycles(closes).value, closes, |closes|, |closes|)
  {
    hide Step, FoldInv, CompiledShape, PositiveCloses, Observe;
    var n := |closes|;
    PositiveAt(closes, n - 1);
    FoldTotal(closes, n, n - 1);
    FoldTotal(closes, n, n);
    StepKeepsInv(Fold(closes, n, n - 1).value, closes, n - 1, n);
    assert Fold(closes, n, n) == Step(Fold(closes, n, n - 1).value, n - 1, closes[n - 1], n);
    if Fold(closes, n, n).Ok? {
      InvShape(Fold(closes, n, n).value, closes, n, n);
    }
  }

  lemma InvShape(st: Compiler, closes: seq<real>, t: nat, sessionCount: nat)
    requires t <= |closes| && PositiveCloses(closes) && FoldInv(st, closes, t, sessionCount)
    ensures CompiledShape(Cycles(st), closes, t, sessionCount)
  {
  }

  function Rung(target: int): int {
    if target >= 100 then 4 else if target >= 60 then 3 else if target >= 30 then 2 else 1
  }

  lemma {:induction false} RungsClimb(c: SourceCycle, closes: seq<real>, t: nat, sessionCount: nat, j: nat)
    requires t <= |closes| && PositiveCloses(closes)
    requires CycleShape(c, closes, t, sessionCount) && j < |Ladder(c)|
    ensures j + 1 <= Rung(Ladder(c)[j].target) <= 4
  {
    if j > 0 {
      RungsClimb(c, closes, t, sessionCount, j - 1);
      assert Ladder(c)[j - 1].target < Ladder(c)[j].target;
      assert FrozenTarget(Ladder(c)[j].target) && FrozenTarget(Ladder(c)[j - 1].target);
    }
  }

  // A cycle has between one and four ladder events, and at most one handoff, last.
  lemma AtMostFourRungs(c: SourceCycle, closes: seq<real>, t: nat, sessionCount: nat)
    requires t <= |closes| && PositiveCloses(closes)
    requires CycleShape(c, closes, t, sessionCount)
    ensures 1 <= |Ladder(c)| <= 4
    ensures forall j :: 0 <= j < |c.events| && c.events[j].kind.HandoffEvent? ==> j == |c.events| - 1
  {
    RungsClimb(c, closes, t, sessionCount, |Ladder(c)| - 1);
    forall j | 0 <= j < |Ladder(c)| ensures c.events[j].kind.EntryOrScale? {
      assert Ladder(c)[j] == c.events[j];
    }
  }

  lemma FoldNext(closes: seq<real>, sessionCount: nat, t: nat)
    requires t < |closes| && PositiveCloses(closes)
    requires Fold(closes, sessionCount, t).Ok?
    ensures closes[t] > 0.0
    ensures Fold(closes, sessionCount, t + 1) ==
            Step(Fold(closes, sessionCount, t).value, t, closes[t], sessionCount)
  {
  }

  predicate Usable(closes: seq<real>) {
    |closes| > 0 && PositiveCloses(closes)
  }

  lemma SourceCyclesFold(closes: seq<real>)
    ensures |closes| == 0 ==> SourceCycles(closes) == Err(EmptyHistory)
    ensures |closes| > 0 && !Usable(closes) ==> SourceCycles(closes) == Err(NonPositiveClose)
    ensures Usable(closes) ==>
              && PositiveCloses(closes)
              && Valid(START.robust) && Fold(closes, |closes|, 0) == Ok(START)
              && SourceCycles(closes) ==
                 match Fold(closes, |closes|, |closes|)
                 case Err(e) => Err(e)
                 case Ok(st) => Ok(Cycles(st))
  {
  }

  // Sessions are positions, so only emptiness and positivity are left to check.
  method ValidateInputRows(closes: seq<real>) returns (error: Option<CompilerError>)
    ensures error == if |closes| == 0 then Some(EmptyHistory)
                     else if !Usable(closes) then Some(NonPositiveClose) else None
  {
    if |closes| == 0 {
      return Some(EmptyHistory);
    }
    for i := 0 to |closes|
      invariant forall k :: 0 <= k < i ==> closes[k] > 0.0
    {
      if closes[i] <= 0.0 {
        return Some(NonPositiveClose);
      }
    }
    return None;
  }

  // The body of the source's loop: one close through the RobustState object, then the builders.
  method CompileRow(state: RobustState, st: Compiler, index: nat, price: real, sessionCount: nat)
    returns (r: Result<Compiler, CompilerError>)
    requires Valid(st.robust) && state.View() == st.robust && price > 0.0
    requires st.robust.mode.Normal? <==> st.active.None?
    modifies state
    ensures r == Step(st, index, price, sessionCount)
    ensures r.Ok? ==> state.View() == r.value.robust
  {
    hide Step, Observe, DrawdownFraction;
    ObserveFacts(st.robust, price);
    var runningAth, active, counter := st.runningAth, st.active, st.counter;
    if runningAth.None? || price > runningAth.value.1 {
      runningAth := Some((index, price));
    }
    var observed := state.ObserveClose(price);
    var decision := observed.value;
    match decision.signal
    case Rotate =>
      var e' := StepOnRotate(st, index, price, sessionCount);
      if st.robust.mode.Normal? {
        counter := counter + 1;
        active := Some(SourceCycle(counter, runningAth.value.0, state.oldPeak.value, [], None));
      }
      if index + 1 >= sessionCount {
        return Err(EventLacksTPlusOne);
      }
      var c := active.value;
      var dd := DrawdownFraction(price, state.oldPeak.value);
      var e := SourceEvent(c.cycleId, EntryOrScale, index, index + 1, c.oldAthDate, c.oldAth, dd, decision.target);
      return Ok(Compiler(RobustView(state.mode, state.oldPeak, state.trough, state.target), runningAth,
                         Some(c.(events := c.events + [e])), st.completed, counter));
    case Handoff =>
      var e' := StepOnHandoff(st, index, price, sessionCount);
      if index + 1 >= sessionCount {
        return Err(HandoffLacksTPlusOne);
      }
      var c := active.value;
      var dd := DrawdownFraction(price, state.oldPeak.value);
      var e := SourceEvent(c.cycleId, HandoffEvent, index, index + 1, c.oldAthDate, c.oldAth, dd, 0);
      return Ok(Compiler(RobustView(state.mode, state.oldPeak, state.trough, state.target), runningAth,
                         Some(c.(events := c.events + [e])), st.completed, counter));
    case Rearm =>
      StepOtherwise(st, index, price, sessionCount);
      return Ok(Compiler(RobustView(state.mode, state.oldPeak, state.trough, state.target), runningAth,
                         None, st.completed + [active.value.(recovery := Some(index))], counter));
    case NoAction =>
      StepOtherwise(st, index, price, sessionCount);
      return Ok(Compiler(RobustView(state.mode, state.oldPeak, state.trough, state.target), runningAth,
                         active, st.completed, counter));
  }

  // The loop of the source, driving a RobustState object.
  method CompileSourceCycles(closes: seq<real>) returns (r: Result<seq<SourceCycle>, CompilerError>)
    ensures r == SourceCycles(closes)
  {
    hide SourceCycles, Usable, PositiveCloses, Fold, FoldInv, Step;
    SourceCyclesFold(closes);
    var invalid := ValidateInputRows(closes);
    if invalid.Some? {
      return Err(invalid.value);
    }
    var state := new RobustState();
    var st := START;
    for index := 0 to |closes|
      invariant Fold(closes, |closes|, index) == Ok(st)
      invariant state.View() == st.robust
    {
      FoldTotal(closes, |closes|, index);
      InvFacts(st, closes, index, |closes|);
      FoldNext(closes, |closes|, index);
      var row := CompileRow(state, st, index, closes[index], |closes|);
      if row.Err? {
        FoldErrorStays(closes, |closes|, index + 1, |closes|);
        return Err(row.error);
      }
      st := row.value;
    }
    var completed := st.completed;
    if st.active.Some? {
      completed := completed + [st.active.value];
    }
    assert completed == Cycles(st);
    return Ok(completed);
  }

  lemma {:induction false} FoldErrorStays(closes: seq<real>, sessionCount: nat, t: nat, u: nat)
    requires t <= u <= |closes| && PositiveCloses(closes)
    requires Fold(closes, sessionCount, t).Err?
    ensures Fold(closes, sessionCount, u) == Fold(closes, sessionCount, t)
    decreases u
  {
    if t < u {
      FoldErrorStays(closes, sessionCount, t, u - 1);
    }
  }
}
