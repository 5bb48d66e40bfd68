// Concrete histories, close by close: what each kind of close does to the compiler.
module Histories {
  import opened Common
  import opened Robust
  import opened SourceCompiler

  // The compiler has come to this state after t of the closes.
  ghost predicate Reached(closes: seq<real>, t: nat, st: Compiler) {
    t <= |closes| && PositiveCloses(closes) && Fold(closes, |closes|, t) == Ok(st)
  }

  lemma Starts(closes: seq<real>)
    requires PositiveCloses(closes) && |closes| > 0
    ensures Reached(closes, 1, Compiler(RobustView(Normal, Some(closes[0]), None, 0), Some((0, closes[0])), None, [], 0))
  {
    LadderReached(closes[0], closes[0]);
    assert Fold(closes, |closes|, 0) == Ok(START);
    FoldNext(closes, |closes|, 0);
    StepOtherwise(START, 0, closes[0], |closes|);
  }

  function Idle(peak: real): RobustView {
    RobustView(Normal, Some(peak), None, 0)
  }

  function Crashed(peak: real, trough: real, target: int): RobustView {
    RobustView(Crash, Some(peak), Some(trough), target)
  }

  function Handed(peak: real, trough: real): RobustView {
    RobustView(PostHandoff, Some(peak), Some(trough), 0)
  }

  lemma LadderSteps(price: real, peak: real)
    requires 0.0 < price <= peak
    ensures price > 0.70 * peak ==> LadderTarget(DrawdownFraction(price, peak)) == 0
    ensures 0.55 * peak < price <= 0.65 * peak ==> LadderTarget(DrawdownFraction(price, peak)) == 30
    ensures price <= 0.50 * peak ==> LadderTarget(DrawdownFraction(price, peak)) == 100
  {
    var q := price / peak;
    Quotient(price, peak, 1.0);
    Quotient(price, peak, 0.70);
    Quotient(price, peak, 0.65);
    Quotient(price, peak, 0.55);
    Quotient(price, peak, 0.50);
    assert DrawdownFraction(price, peak) == 1.0 - q;
  }

  lemma Quotient(price: real, peak: real, level: real)
    requires peak > 0.0
    ensures price / peak <= level <==> price <= level * peak
  {
    var q := price / peak;
    assert q * peak == price;
    ScaleKeepsOrder(q, level, peak);
  }

  function LadderEvent(c: SourceCycle, t: nat, price: real, target: int): SourceEvent
    requires price > 0.0 && c.oldAth > 0.0
  {
    SourceEvent(c.cycleId, EntryOrScale, t, t + 1, c.oldAthDate, c.oldAth, DrawdownFraction(price, c.oldAth), target)
  }

  function HandoffOf(c: SourceCycle, t: nat, price: real): SourceEvent
    requires price > 0.0 && c.oldAth > 0.0
  {
    SourceEvent(c.cycleId, HandoffEvent, t, t + 1, c.oldAthDate, c.oldAth, DrawdownFraction(price, c.oldAth), 0)
  }

  // A fall by between 35% and 45% from the peak opens a cycle at 30%.
  lemma Falls(closes: seq<real>, t: nat, st: Compiler, peak: real) returns (st': Compiler)
    requires Reached(closes, t, st) && t + 1 < |closes| && st.robust == Idle(peak) && st.active.None?
    requires 0.55 * peak < closes[t] <= 0.65 * peak && st.runningAth.Some? && closes[t] <= st.runningAth.value.1
    ensures var c := SourceCycle(st.counter + 1, st.runningAth.value.0, peak, [], None);
            && st' == Compiler(Crashed(peak, closes[t], 30), st.runningAth, Some(c.(events := [LadderEvent(c, t, closes[t], 30)])), st.completed, st.counter + 1)
            && Reached(closes, t + 1, st')
  {
    hide Step, PositiveCloses, DrawdownFraction;
    FoldNext(closes, |closes|, t);
    LadderSteps(closes[t], peak);
    var e := StepOnRotate(st, t, closes[t], |closes|);
    st' := Fold(closes, |closes|, t + 1).value;
    assert [] + [e] == [e];
  }

  // A fall to half of the peak or less scales a crash at 30% up to 100%.
  lemma FallsFurther(closes: seq<real>, t: nat, st: Compiler, peak: real) returns (st': Compiler)
    requires Reached(closes, t, st) && t + 1 < |closes| && st.robust.mode.Crash? && st.robust.oldPeak == Some(peak) && st.robust.target == 30
    requires closes[t] <= st.robust.trough.value && closes[t] <= 0.50 * peak
    requires st.active.Some? && st.active.value.oldAth == peak && st.runningAth.Some? && closes[t] <= st.runningAth.value.1
    ensures var c := st.active.value;
            && st' == Compiler(Crashed(peak, closes[t], 100), st.runningAth, Some(c.(events := c.events + [LadderEvent(c, t, closes[t], 100)])), st.completed, st.counter)
            && Reached(closes, t + 1, st')
  {
    hide Step, PositiveCloses, DrawdownFraction, RecoveryFraction;
    FoldNext(closes, |closes|, t);
    LadderSteps(closes[t], peak);
    var e := StepOnRotate(st, t, closes[t], |closes|);
    st' := Fold(closes, |closes|, t + 1).value;
  }

  // A close that regains 55% of the fall and stands above the ladder hands the crash off.
  lemma HandsOff(closes: seq<real>, t: nat, st: Compiler, peak: real, trough: real) returns (st': Compiler)
    requires Reached(closes, t, st) && t + 1 < |closes| && st.robust == Crashed(peak, trough, 30)
    requires closes[t] > 0.70 * peak && closes[t] - trough >= 0.55 * (peak - trough)
    requires st.active.Some? && st.active.value.oldAth == peak && st.runningAth.Some?
    ensures var c := st.active.value;
            && st' == Compiler(Handed(peak, trough), Ath(st, t, closes[t]), Some(c.(events := c.events + [HandoffOf(c, t, closes[t])])), st.completed, st.counter)
            && Reached(closes, t + 1, st')
  {
    hide Step, PositiveCloses, DrawdownFraction, RecoveryFraction;
    FoldNext(closes, |closes|, t);
    HandoffReached(closes[t], peak, trough);
    NoRung(closes[t], peak);
    var e := StepOnHandoff(st, t, closes[t], |closes|);
    st' := Fold(closes, |closes|, t + 1).value;
  }

  lemma NoRung(price: real, peak: real)
    requires peak > 0.0 && price > 0.70 * peak
    ensures LadderTarget(DrawdownFraction(price, peak)) == 0
  {
    LadderReached(price, peak);
    assert LadderTarget(DrawdownFraction(price, peak)) >= 0;
  }

  // A close at the old peak or above ends a handed-off crash.
  lemma Recovers(closes: seq<real>, t: nat, st: Compiler, peak: real, trough: real) returns (st': Compiler)
    requires Reached(closes, t, st) && t < |closes| && st.robust == Handed(peak, trough) && closes[t] >= peak && st.active.Some?
    ensures st' == Compiler(Idle(closes[t]), Ath(st, t, closes[t]), None, st.completed + [st.active.value.(recovery := Some(t))], st.counter)
    ensures Reached(closes, t + 1, st')
  {
    hide Step, PositiveCloses, DrawdownFraction, RecoveryFraction;
    FoldNext(closes, |closes|, t);
    StepOtherwise(st, t, closes[t], |closes|);
    st' := Fold(closes, |closes|, t + 1).value;
  }

  // A close that changes nothing: at the trough of a crash, below the peak of a handed-off one, or
  // near the peak when there is none.
  predicate Rests(s: RobustView, price: real) {
    && s.oldPeak.Some?
    && match s.mode
       case Normal => 0.70 * s.oldPeak.value < price <= s.oldPeak.value && s == Idle(s.oldPeak.value)
       case Crash =>
         s.trough == Some(price) && price < s.oldPeak.value && (s.target == 100 || (s.target == 30 && 0.55 * s.oldPeak.value < price))
       case PostHandoff => price < s.oldPeak.value
  }

  lemma RestsOnce(s: RobustView, price: real)
    requires Valid(s) && price > 0.0 && Rests(s, price)
    ensures Observe(s, price).0 == s && Observe(s, price).1.signal.NoAction?
  {
    hide DrawdownFraction;
    var peak := s.oldPeak.value;
    if s.mode.Normal? {
      NoRung(price, peak);
    } else if s.mode.Crash? {
      if s.target == 30 {
        LowRung(price, peak);
      }
      assert (price - price) / (peak - price) == 0.0;
    }
  }

  lemma LowRung(price: real, peak: real)
    requires 0.55 * peak < price < peak && peak > 0.0
    ensures LadderTarget(DrawdownFraction(price, peak)) <= 30
  {
    Quotient(price, peak, 0.55);
    Quotient(price, peak, 1.0);
  }

  lemma {:induction false} RestsFor(closes: seq<real>, t: nat, u: nat, st: Compiler, price: real)
    requires Reached(closes, t, st) && t <= u <= |closes| && Rests(st.robust, price)
    requires st.robust.mode.Normal? <==> st.active.None?
    requires st.runningAth.Some? && price <= st.runningAth.value.1
    requires forall k :: t <= k < u ==> closes[k] == price
    ensures Reached(closes, u, st)
    decreases u
  {
    hide Step, Rests, PositiveCloses;
    if t < u {
      RestsFor(closes, t, u - 1, st, price);
      FoldNext(closes, |closes|, u - 1);
      RestsOnce(st.robust, price);
      StepOtherwise(st, u - 1, price, |closes|);
    }
  }

  lemma Compiled(closes: seq<real>, st: Compiler)
    requires |closes| > 0 && Reached(closes, |closes|, st)
    ensures SourceCycles(closes) == Ok(Cycles(st))
  {
  }

  // A second cycle whose ATH value is 101 and whose ATH date has the close 110: the crash ran on
  // past the close 110, and the peak was rearmed at 101.
  lemma AthNotCarried()
    ensures var closes := [100.0, 60.0, 110.0, 101.0, 60.0, 60.0];
            && SourceCycles(closes).Ok? && |SourceCycles(closes).value| == 2
            && SourceCycles(closes).value[1].oldAth == 101.0
            && SourceCycles(closes).value[1].oldAthDate == 2 && closes[2] == 110.0
  {
    hide Fold, Step;
    var closes := [100.0, 60.0, 110.0, 101.0, 60.0, 60.0];
    Starts(closes);
    var st := Falls(closes, 1, Compiler(Idle(100.0), Some((0, 100.0)), None, [], 0), 100.0);
    st := HandsOff(closes, 2, st, 100.0, 60.0);
    st := Recovers(closes, 3, st, 100.0, 60.0);
    st := Falls(closes, 4, st, 101.0);
    RestsFor(closes, 5, 6, st, 60.0);
    Compiled(closes, st);
  }
}
