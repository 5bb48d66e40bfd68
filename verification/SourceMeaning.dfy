// What the numbers in the ladder machine and in the compiled cycles stand for: the peak, the
// trough and the target as extremes over the closes they were taken from.
module SourceMeaning {
  import opened Common
  import opened Robust
  import opened SourceCompiler

  // The machine after the first t closes.
  function Observed(closes: seq<real>, t: nat): (r: RobustView)
    requires t <= |closes| && PositiveCloses(closes)
    ensures Valid(r)
  {
    if t == 0 then INITIAL else Observe(Observed(closes, t - 1), closes[t - 1]).0
  }

  ghost predicate IsMax(closes: seq<real>, a: nat, b: nat, x: real)
    requires b <= |closes|
  {
    (exists u :: a <= u < b && closes[u] == x) && forall u :: a <= u < b ==> closes[u] <= x
  }

  ghost predicate IsMin(closes: seq<real>, a: nat, b: nat, x: real)
    requires b <= |closes|
  {
    (exists u :: a <= u < b && closes[u] == x) && forall u :: a <= u < b ==> x <= closes[u]
  }

  // The rung of the ladder a close stands on, below a peak.
  function PriceRung(close: real, peak: real): int {
    if close <= 0.50 * peak then 100
    else if close <= 0.55 * peak then 60
    else if close <= 0.65 * peak then 30
    else if close <= 0.70 * peak then 10
    else 0
  }

  // The largest rung reached on these closes.
  ghost predicate IsTopRung(closes: seq<real>, a: nat, b: nat, peak: real, target: int)
    requires b <= |closes|
  {
    && (exists u :: a <= u < b && PriceRung(closes[u], peak) == target)
    && forall u :: a <= u < b ==> PriceRung(closes[u], peak) <= target
  }

  // The close is 30% or more below some close since the rearm.
  ghost predicate Falls(closes: seq<real>, rearmed: nat, u: nat)
    requires u < |closes|
  {
    exists k :: rearmed <= k <= u && closes[u] <= 0.70 * closes[k]
  }

  ghost predicate NoFall(closes: seq<real>, a: nat, b: nat)
    requires b <= |closes|
  {
    forall u :: a <= u < b ==> !Falls(closes, a, u)
  }

  // The crash begins at the first close that falls, from the highest close since the rearm.
  ghost predicate Begins(closes: seq<real>, rearmed: nat, start: nat, peak: real)
    requires start < |closes|
  {
    && rearmed < start && NoFall(closes, rearmed, start) && Falls(closes, rearmed, start)
    && IsMax(closes, rearmed, start + 1, peak)
  }

  // The close stands on a higher rung than every close of the crash before it.
  ghost predicate Raises(closes: seq<real>, start: nat, u: nat, peak: real)
    requires u < |closes|
  {
    PriceRung(closes[u], peak) > 0 && forall k :: start <= k < u ==> PriceRung(closes[k], peak) < PriceRung(closes[u], peak)
  }

  // The close has regained 55% of the fall to some close of the crash.
  ghost predicate Regains(closes: seq<real>, start: nat, u: nat, peak: real)
    requires u < |closes|
  {
    exists k :: start <= k <= u && closes[u] - closes[k] >= 0.55 * (peak - closes[k])
  }

  ghost predicate Hands(closes: seq<real>, start: nat, u: nat, peak: real)
    requires u < |closes|
  {
    !Raises(closes, start, u, peak) && Regains(closes, start, u, peak)
  }

  ghost predicate NoHandoff(closes: seq<real>, start: nat, b: nat, peak: real)
    requires b <= |closes|
  {
    forall u :: start < u < b ==> !Hands(closes, start, u, peak)
  }

  // The handoff is the first close of the crash that raises no rung and has regained 55%.
  ghost predicate HandsFirst(closes: seq<real>, start: nat, handoff: nat, peak: real)
    requires handoff < |closes|
  {
    start < handoff && Hands(closes, start, handoff, peak) && NoHandoff(closes, start, handoff, peak)
  }

  ghost predicate Below(closes: seq<real>, a: nat, b: nat, level: real)
    requires b <= |closes|
  {
    forall u :: a < u < b ==> closes[u] < level
  }

  // The peak is the highest close since the last rearm, and nothing has fallen from it; in a crash,
  // which began at the first fall, the trough is the lowest close, the target the largest rung and
  // no close has handed off; after the first close that did, none has reached the peak.
  ghost predicate Means(s: RobustView, closes: seq<real>, t: nat, rearmed: nat, start: nat, handoff: nat)
    requires t <= |closes|
  {
    && s.oldPeak.Some? && s.oldPeak.value > 0.0
    && var peak := s.oldPeak.value;
       match s.mode
       case Normal => rearmed < t && IsMax(closes, rearmed, t, peak) && NoFall(closes, rearmed, t)
       case Crash =>
         && start < t && s.trough.Some?
         && Begins(closes, rearmed, start, peak)
         && IsMin(closes, start, t, s.trough.value)
         && IsTopRung(closes, start, t, peak, s.target)
         && NoHandoff(closes, start, t, peak)
       case PostHandoff =>
         && start < handoff < t && s.trough.Some?
         && Begins(closes, rearmed, start, peak)
         && IsMin(closes, start, handoff + 1, s.trough.value)
         && HandsFirst(closes, start, handoff, peak)
         && Below(closes, handoff, t, peak)
  }

  // What the machine signals on the next close, and the target it goes to.
  ghost predicate Signals(s: RobustView, closes: seq<real>, t: nat, rearmed: nat, start: nat, next: RobustView, signal: Signal)
    requires t < |closes| && s.oldPeak.Some?
  {
    var peak := s.oldPeak.value;
    match s.mode
    case Normal =>
      && (signal.Rotate? <==> Falls(closes, rearmed, t)) && (signal.NoAction? <==> !Falls(closes, rearmed, t))
      && next.oldPeak == Some(Robust.Max(closes[t], peak))
      && next.target == PriceRung(closes[t], Robust.Max(closes[t], peak))
    case Crash =>
      && (signal.Rotate? <==> Raises(closes, start, t, peak)) && (signal.Handoff? <==> Hands(closes, start, t, peak))
      && !signal.Rearm? && next.oldPeak == s.oldPeak
      && next.target == (if signal.Rotate? then PriceRung(closes[t], peak) else if signal.Handoff? then 0 else s.target)
    case PostHandoff =>
      && (signal.Rearm? <==> closes[t] >= peak) && (signal.NoAction? <==> closes[t] < peak)
      && next.oldPeak == Some(if closes[t] >= peak then closes[t] else peak) && next.target == 0
  }

  lemma MaxGrows(closes: seq<real>, a: nat, t: nat, x: real)
    requires t < |closes| && IsMax(closes, a, t, x) && a <= t
    ensures IsMax(closes, a, t + 1, Robust.Max(closes[t], x))
  {
    if closes[t] < x {
      var u :| a <= u < t && closes[u] == x;
    }
  }

  lemma MinGrows(closes: seq<real>, a: nat, t: nat, x: real)
    requires t < |closes| && IsMin(closes, a, t, x) && a <= t
    ensures IsMin(closes, a, t + 1, if closes[t] < x then closes[t] else x)
  {
    if closes[t] >= x {
      var u :| a <= u < t && closes[u] == x;
    }
  }

  lemma OneClose(closes: seq<real>, t: nat)
    requires t < |closes|
    ensures IsMax(closes, t, t + 1, closes[t]) && IsMin(closes, t, t + 1, closes[t])
  {
    assert closes[t] == closes[t];
  }

  // The ladder of drawdowns is the ladder of prices.
  lemma RungIs(price: real, peak: real)
    requires 0.0 < price && 0.0 < peak
    ensures LadderTarget(DrawdownFraction(price, peak)) == PriceRung(price, peak)
  {
    var q := price / peak;
    QuotientLevel(price, peak, 0.50);
    QuotientLevel(price, peak, 0.55);
    QuotientLevel(price, peak, 0.65);
    QuotientLevel(price, peak, 0.70);
    assert DrawdownFraction(price, peak) == if 1.0 - q <= 0.0 then 0.0 else 1.0 - q;
  }

  lemma QuotientLevel(price: real, peak: real, level: real)
    requires peak > 0.0
    ensures price / peak <= level <==> price <= level * peak
  {
    assert price / peak * peak == price;
    ScaleKeepsOrder(price / peak, level, peak);
  }

  lemma FallIsMax(closes: seq<real>, rearmed: nat, t: nat, peak: real)
    requires t < |closes| && IsMax(closes, rearmed, t + 1, peak)
    ensures Falls(closes, rearmed, t) <==> PriceRung(closes[t], peak) > 0
  {
    if closes[t] <= 0.70 * peak {
      var k :| rearmed <= k < t + 1 && closes[k] == peak;
    }
  }

  lemma RaiseIsTop(closes: seq<real>, start: nat, t: nat, peak: real, target: int)
    requires start < t < |closes| && IsTopRung(closes, start, t, peak, target) && target > 0
    ensures Raises(closes, start, t, peak) <==> PriceRung(closes[t], peak) > target
    ensures var rung := PriceRung(closes[t], peak); IsTopRung(closes, start, t + 1, peak, if rung > target then rung else target)
  {
    hide PriceRung;
    var u :| start <= u < t && PriceRung(closes[u], peak) == target;
  }

  lemma RegainIsMin(closes: seq<real>, start: nat, t: nat, peak: real, trough: real)
    requires start <= t < |closes| && IsMin(closes, start, t + 1, trough)
    ensures Regains(closes, start, t, peak) <==> closes[t] - trough >= 0.55 * (peak - trough)
  {
    if closes[t] - trough >= 0.55 * (peak - trough) {
      var k :| start <= k < t + 1 && closes[k] == trough;
    }
  }

  lemma NormalMeans(s: RobustView, closes: seq<real>, t: nat, rearmed: nat) returns (start: nat)
    requires t < |closes| && PositiveCloses(closes) && Valid(s) && s.mode.Normal?
    requires Means(s, closes, t, rearmed, 0, 0)
    ensures Means(Observe(s, closes[t]).0, closes, t + 1, rearmed, start, 0)
    ensures Signals(s, closes, t, rearmed, 0, Observe(s, closes[t]).0, Observe(s, closes[t]).1.signal)
    ensures Observe(s, closes[t]).1.signal.Rotate? ==> start == t
  {
    hide IsMax, IsMin, Falls, DrawdownFraction, LadderTarget;
    start := t;
    var peak := Robust.Max(closes[t], s.oldPeak.value);
    MaxGrows(closes, rearmed, t, s.oldPeak.value);
    FallIsMax(closes, rearmed, t, peak);
    RungIs(closes[t], peak);
    OneClose(closes, t);
  }

  lemma CrashMeans(s: RobustView, closes: seq<real>, t: nat, rearmed: nat, start: nat)
    requires t < |closes| && PositiveCloses(closes) && Valid(s) && s.mode.Crash?
    requires Means(s, closes, t, rearmed, start, 0)
    ensures Means(Observe(s, closes[t]).0, closes, t + 1, rearmed, start, t)
    ensures Signals(s, closes, t, rearmed, start, Observe(s, closes[t]).0, Observe(s, closes[t]).1.signal)
  {
    hide IsMax, IsMin, IsTopRung, Falls, Begins, Raises, Regains, DrawdownFraction, LadderTarget, RecoveryFraction, PriceRung;
    var peak := s.oldPeak.value;
    assert closes[t] > 0.0;
    var trough := if closes[t] < s.trough.value then closes[t] else s.trough.value;
    MinGrows(closes, start, t, s.trough.value);
    RungIs(closes[t], peak);
    RaiseIsTop(closes, start, t, peak, s.target);
    HandoffReached(closes[t], peak, trough);
    RegainIsMin(closes, start, t, peak, trough);
  }

  lemma HandedMeans(s: RobustView, closes: seq<real>, t: nat, rearmed: nat, start: nat, handoff: nat) returns (from: nat)
    requires t < |closes| && PositiveCloses(closes) && Valid(s) && s.mode.PostHandoff?
    requires Means(s, closes, t, rearmed, start, handoff)
    ensures Means(Observe(s, closes[t]).0, closes, t + 1, from, start, handoff)
    ensures Signals(s, closes, t, rearmed, start, Observe(s, closes[t]).0, Observe(s, closes[t]).1.signal)
    ensures from == if Observe(s, closes[t]).1.signal.Rearm? then t else rearmed
  {
    hide IsMax, IsMin, Begins, HandsFirst;
    OneClose(closes, t);
    from := if closes[t] >= s.oldPeak.value then t else rearmed;
    assert !Falls(closes, t, t);
  }

  // After every close the machine is where these closes put it.
  lemma {:induction false} MachineMeans(closes: seq<real>, t: nat) returns (rearmed: nat, start: nat, handoff: nat)
    requires 0 < t <= |closes| && PositiveCloses(closes)
    ensures Means(Observed(closes, t), closes, t, rearmed, start, handoff)
  {
    hide IsMax, Observe, Means;
    if t == 1 {
      rearmed, start, handoff := 0, 0, 0;
      FirstClose(closes);
    } else {
      rearmed, start, handoff := MachineMeans(closes, t - 1);
      rearmed, start, handoff := NextMeans(Observed(closes, t - 1), closes, t - 1, rearmed, start, handoff);
    }
  }

  lemma NextMeans(s: RobustView, closes: seq<real>, t: nat, rearmed: nat, start: nat, handoff: nat)
    returns (rearmed': nat, start': nat, handoff': nat)
    requires t < |closes| && PositiveCloses(closes) && Valid(s) && Means(s, closes, t, rearmed, start, handoff)
    ensures Means(Observe(s, closes[t]).0, closes, t + 1, rearmed', start', handoff')
    ensures Signals(s, closes, t, rearmed, start, Observe(s, closes[t]).0, Observe(s, closes[t]).1.signal)
    ensures rearmed' == if Observe(s, closes[t]).1.signal.Rearm? then t else rearmed
    ensures s.mode.Normal? && Observe(s, closes[t]).1.signal.Rotate? ==> start' == t
    ensures !s.mode.Normal? ==> start' == start
    ensures Observe(s, closes[t]).1.signal.Handoff? ==> handoff' == t
    ensures s.mode.PostHandoff? ==> handoff' == handoff
  {
    hide IsMax, IsMin, IsTopRung, Begins, HandsFirst, NoHandoff, NoFall, Below, Observe, Falls, Raises, Hands, PriceRung;
    rearmed', start', handoff' := rearmed, start, handoff;
    match s.mode
    case Normal =>
      start' := NormalMeans(s, closes, t, rearmed);
      handoff' := 0;
      NotRearmed(s, closes[t]);
    case Crash =>
      CrashMeans(s, closes, t, rearmed, start);
      handoff' := t;
      NotRearmed(s, closes[t]);
    case PostHandoff =>
      rearmed' := HandedMeans(s, closes, t, rearmed, start, handoff);
  }

  lemma NotRearmed(s: RobustView, price: real)
    requires Valid(s) && price > 0.0
    ensures !s.mode.PostHandoff? ==> !Observe(s, price).1.signal.Rearm?
  {
    hide DrawdownFraction, RecoveryFraction;
  }

  // Every signal of the machine, on closes alone: a first fall, a higher rung, the first close that
  // raises none and has regained 55%, or the first close back at the peak.
  lemma EverySignal(closes: seq<real>, t: nat) returns (rearmed: nat, start: nat, handoff: nat)
    requires 0 < t < |closes| && PositiveCloses(closes)
    ensures Means(Observed(closes, t), closes, t, rearmed, start, handoff)
    ensures Signals(Observed(closes, t), closes, t, rearmed, start, Observed(closes, t + 1),
                    Observe(Observed(closes, t), closes[t]).1.signal)
  {
    hide Means, Signals, Observe;
    rearmed, start, handoff := MachineMeans(closes, t);
    var a, b, c := NextMeans(Observed(closes, t), closes, t, rearmed, start, handoff);
  }

  lemma FirstClose(closes: seq<real>)
    requires |closes| > 0 && PositiveCloses(closes)
    ensures Means(Observed(closes, 1), closes, 1, 0, 0, 0)
  {
    hide IsMax;
    OneClose(closes, 0);
    assert Observed(closes, 0) == INITIAL;
    LadderReached(closes[0], closes[0]);
  }

  /* ---- The compiled numbers ---- */

  // The date of the ATH is the first of the highest closes up to the first signal, the ATH
  // value is at most that close, and each drawdown is that of its own signal close.
  ghost predicate Measured(c: SourceCycle, closes: seq<real>, t: nat)
    requires t <= |closes| && PositiveCloses(closes)
  {
    && c.oldAth > 0.0
    && c.oldAthDate < t && c.oldAthDate <= First(c)
    && c.oldAth <= closes[c.oldAthDate]
    && (forall u :: 0 <= u <= First(c) && u < t ==> closes[u] <= closes[c.oldAthDate])
    && (forall u :: 0 <= u < c.oldAthDate ==> closes[u] < closes[c.oldAthDate])
    && (forall j :: 0 <= j < |c.events| ==> DrawdownIs(c.events[j], c.oldAth, closes, t))
  }

  ghost predicate DrawdownIs(e: SourceEvent, oldAth: real, closes: seq<real>, t: nat)
    requires t <= |closes| && PositiveCloses(closes) && oldAth > 0.0
  {
    e.signal < t && e.drawdown == DrawdownFraction(closes[e.signal], oldAth)
  }

  // The running ATH is the first highest close so far, and the machine's peak is no higher.
  ghost predicate RunningAth(st: Compiler, closes: seq<real>, t: nat)
    requires t <= |closes|
  {
    t > 0 ==>
      && st.runningAth.Some? && st.robust.oldPeak.Some?
      && var (date, value) := st.runningAth.value;
         && date < t && closes[date] == value && st.robust.oldPeak.value <= value
         && (forall u :: 0 <= u < t ==> closes[u] <= value)
         && (forall u :: 0 <= u < date ==> closes[u] < value)
  }

  ghost predicate AllMeasured(cycles: seq<SourceCycle>, closes: seq<real>, t: nat)
    requires t <= |closes| && PositiveCloses(closes)
  {
    forall i :: 0 <= i < |cycles| ==> Measured(cycles[i], closes, t)
  }

  lemma MeasuredLater(c: SourceCycle, closes: seq<real>, t: nat)
    requires t < |closes| && PositiveCloses(closes) && Measured(c, closes, t) && First(c) < t
    ensures Measured(c, closes, t + 1)
  {
    hide DrawdownFraction;
  }

  lemma RunningGrows(st: Compiler, closes: seq<real>, t: nat, sessionCount: nat)
    requires t < |closes| <= sessionCount && PositiveCloses(closes) && FoldInv(st, closes, t, sessionCount) && RunningAth(st, closes, t)
    requires Step(st, t, closes[t], sessionCount).Ok?
    ensures RunningAth(Step(st, t, closes[t], sessionCount).value, closes, t + 1)
    ensures Step(st, t, closes[t], sessionCount).value.runningAth == Ath(st, t, closes[t])
  {
    hide FoldInv, Step, Observe;
    InvFacts(st, closes, t, sessionCount);
    EmptyStart(st, closes, t, sessionCount);
    var price := closes[t];
    ObserveFacts(st.robust, price);
    PeakBound(st.robust, price);
    match Observe(st.robust, price).1.signal
    case Rotate => var e := StepOnRotate(st, t, price, sessionCount);
    case Handoff => var e := StepOnHandoff(st, t, price, sessionCount);
    case Rearm => StepOtherwise(st, t, price, sessionCount);
    case NoAction => StepOtherwise(st, t, price, sessionCount);
  }

  lemma EmptyStart(st: Compiler, closes: seq<real>, t: nat, sessionCount: nat)
    requires t <= |closes| && PositiveCloses(closes) && FoldInv(st, closes, t, sessionCount)
    ensures t == 0 ==> st.runningAth.None? && st.robust.oldPeak.None?
  {
  }

  // The peak is never above the larger of the old peak and the close.
  lemma PeakBound(s: RobustView, price: real)
    requires Valid(s) && price > 0.0
    ensures var r := Observe(s, price).0;
            && r.oldPeak.Some?
            && (s.oldPeak.None? ==> r.oldPeak.value == price)
            && (s.oldPeak.Some? ==> r.oldPeak.value <= Robust.Max(s.oldPeak.value, price))
  {
    hide DrawdownFraction, RecoveryFraction;
  }

  lemma RotateMeasures(st: Compiler, closes: seq<real>, t: nat, sessionCount: nat)
    requires t < |closes| <= sessionCount && PositiveCloses(closes)
    requires FoldInv(st, closes, t, sessionCount) && RunningAth(st, closes, t) && AllMeasured(Cycles(st), closes, t)
    requires Observe(st.robust, closes[t]).1.signal.Rotate? && Step(st, t, closes[t], sessionCount).Ok?
    ensures st.robust.mode.Normal? || st.active.Some?
    ensures Step(st, t, closes[t], sessionCount).value.active.Some?
    ensures Measured(Step(st, t, closes[t], sessionCount).value.active.value, closes, t + 1)
    ensures Step(st, t, closes[t], sessionCount).value.completed == st.completed
  {
    hide FoldInv, Step, Observe, DrawdownFraction;
    InvFacts(st, closes, t, sessionCount);
    var price := closes[t];
    ObserveFacts(st.robust, price);
    PeakBound(st.robust, price);
    EmptyStart(st, closes, t, sessionCount);
    var e := StepOnRotate(st, t, price, sessionCount);
    var c := LadderBuilder(st, t, price);
    var c' := c.(events := c.events + [e]);
    if st.active.Some? {
      NewestMeasured(st, closes, t, sessionCount);
    }
    assert First(c') == if c.events == [] then t else First(c);
    forall j | 0 <= j < |c'.events| ensures DrawdownIs(c'.events[j], c'.oldAth, closes, t + 1) {
      if j < |c.events| {
        assert c'.events[j] == c.events[j] && DrawdownIs(c.events[j], c.oldAth, closes, t);
      }
    }
  }

  lemma NewestMeasured(st: Compiler, closes: seq<real>, t: nat, sessionCount: nat)
    requires t < |closes| <= sessionCount && PositiveCloses(closes)
    requires FoldInv(st, closes, t, sessionCount) && AllMeasured(Cycles(st), closes, t) && st.active.Some?
    ensures Measured(st.active.value, closes, t) && First(st.active.value) < t
  {
    hide FoldInv, Measured;
    assert Cycles(st)[|st.completed|] == st.active.value;
    NewestFacts(st, closes, t, sessionCount);
    FirstInTime(st.active.value, closes, t, sessionCount);
  }

  lemma FirstInTime(c: SourceCycle, closes: seq<real>, t: nat, sessionCount: nat)
    requires t <= |closes| && PositiveCloses(closes) && CycleShape(c, closes, t, sessionCount)
    ensures First(c) < t && |c.events| > 0
  {
    assert EventFits(c.events[0], c, closes, t, sessionCount);
  }

  lemma CompletedMeasured(st: Compiler, closes: seq<real>, t: nat, sessionCount: nat)
    requires t < |closes| <= sessionCount && PositiveCloses(closes)
    requires FoldInv(st, closes, t, sessionCount) && AllMeasured(Cycles(st), closes, t)
    ensures AllMeasured(st.completed, closes, t + 1)
  {
    hide Measured, CycleShape, CompiledShape;
    LaterShapes(st, closes, t, sessionCount);
    forall i | 0 <= i < |st.completed| ensures Measured(st.completed[i], closes, t + 1) {
      assert Cycles(st)[i] == st.completed[i];
      CompletedInTime(st, closes, t, sessionCount, i);
      MeasuredLater(st.completed[i], closes, t);
    }
  }

  lemma CompletedInTime(st: Compiler, closes: seq<real>, t: nat, sessionCount: nat, i: nat)
    requires t <= |closes| && PositiveCloses(closes) && FoldInv(st, closes, t, sessionCount) && i < |st.completed|
    ensures First(st.completed[i]) < t
  {
    hide CycleShape;
    assert Cycles(st)[i] == st.completed[i];
    FirstInTime(st.completed[i], closes, t, sessionCount);
  }

  lemma HandoffMeasures(st: Compiler, closes: seq<real>, t: nat, sessionCount: nat)
    requires t < |closes| <= sessionCount && PositiveCloses(closes)
    requires FoldInv(st, closes, t, sessionCount) && AllMeasured(Cycles(st), closes, t)
    requires Observe(st.robust, closes[t]).1.signal.Handoff? && Step(st, t, closes[t], sessionCount).Ok?
    ensures Step(st, t, closes[t], sessionCount).value.active.Some?
    ensures Measured(Step(st, t, closes[t], sessionCount).value.active.value, closes, t + 1)
    ensures Step(st, t, closes[t], sessionCount).value.completed == st.completed
  {
    hide FoldInv, Step, Observe, DrawdownFraction;
    InvFacts(st, closes, t, sessionCount);
    ObserveFacts(st.robust, closes[t]);
    NewestMeasured(st, closes, t, sessionCount);
    NewestFacts(st, closes, t, sessionCount);
    FirstInTime(st.active.value, closes, t, sessionCount);
    var e := StepOnHandoff(st, t, closes[t], sessionCount);
    var c := st.active.value;
    var c' := c.(events := c.events + [e]);
    MeasuredLater(c, closes, t);
    assert First(c') == First(c);
    forall j | 0 <= j < |c'.events| ensures DrawdownIs(c'.events[j], c'.oldAth, closes, t + 1) {
      if j < |c.events| {
        assert c'.events[j] == c.events[j] && DrawdownIs(c.events[j], c.oldAth, closes, t + 1);
      }
    }
  }

  lemma StepMeasures(st: Compiler, closes: seq<real>, t: nat, sessionCount: nat)
    requires t < |closes| <= sessionCount && PositiveCloses(closes)
    requires FoldInv(st, closes, t, sessionCount) && RunningAth(st, closes, t) && AllMeasured(Cycles(st), closes, t)
    requires Step(st, t, closes[t], sessionCount).Ok?
    ensures AllMeasured(Cycles(Step(st, t, closes[t], sessionCount).value), closes, t + 1)
  {
    hide FoldInv, Step, Observe, Measured, RunningAth;
    InvFacts(st, closes, t, sessionCount);
    CompletedMeasured(st, closes, t, sessionCount);
    var price := closes[t];
    ObserveFacts(st.robust, price);
    match Observe(st.robust, price).1.signal
    case Rotate => RotateMeasures(st, closes, t, sessionCount);
    case Handoff => HandoffMeasures(st, closes, t, sessionCount);
    case Rearm =>
      StepOtherwise(st, t, price, sessionCount);
      NewestMeasured(st, closes, t, sessionCount);
      MeasuredLater(st.active.value, closes, t);
      SameNumbers(st.active.value, Some(t), closes, t + 1);
    case NoAction =>
      StepOtherwise(st, t, price, sessionCount);
      if st.active.Some? {
        NewestMeasured(st, closes, t, sessionCount);
        MeasuredLater(st.active.value, closes, t);
      }
  }

  lemma SameNumbers(c: SourceCycle, recovery: Option<nat>, closes: seq<real>, t: nat)
    requires t <= |closes| && PositiveCloses(closes) && Measured(c, closes, t)
    ensures Measured(c.(recovery := recovery), closes, t)
  {
  }

  lemma {:induction false} FoldMeasures(closes: seq<real>, sessionCount: nat, t: nat)
    requires t <= |closes| <= sessionCount && PositiveCloses(closes) && Fold(closes, sessionCount, t).Ok?
    ensures var st := Fold(closes, sessionCount, t).value;
            RunningAth(st, closes, t) && AllMeasured(Cycles(st), closes, t)
  {
    hide FoldInv, Step, RunningAth, AllMeasured;
    if t == 0 {
      NothingMeasured(closes);
    } else {
      FoldMeasures(closes, sessionCount, t - 1);
      FoldTotal(closes, sessionCount, t - 1);
      var st := Fold(closes, sessionCount, t - 1).value;
      RunningGrows(st, closes, t - 1, sessionCount);
      StepMeasures(st, closes, t - 1, sessionCount);
    }
  }

  lemma NothingMeasured(closes: seq<real>)
    requires PositiveCloses(closes)
    ensures RunningAth(START, closes, 0) && AllMeasured(Cycles(START), closes, 0)
  {
  }

  // Every compiled cycle carries the first highest close before it and true drawdowns.
  lemma CompiledNumbers(closes: seq<real>)
    requires SourceCycles(closes).Ok?
    ensures PositiveCloses(closes) && AllMeasured(SourceCycles(closes).value, closes, |closes|)
  {
    hide AllMeasured, RunningAth;
    FoldMeasures(closes, |closes|, |closes|);
  }
}
