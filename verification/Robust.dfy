// The causal crash ladder of src/sp1execution/strategy/robust.py: a close moves
// a NORMAL / CRASH / POST_HANDOFF machine.  Prices are reals; sleeve targets are
// whole percents, so the ladder 0.10, 0.30, 0.60, 1.00 is 10, 30, 60, 100.
module Robust {
  import opened Common

  datatype Mode = Normal | Crash | PostHandoff

  // The event text of a Decision, without its formatted number.
  datatype Signal = NoAction | Rotate | Handoff | Rearm

  datatype Decision = Decision(mode: Mode, target: int, signal: Signal)

  datatype RobustError = NonPositivePrice | DrawdownOutOfRange

  const LEVELS: seq<(real, int)> := [(0.30, 10), (0.35, 30), (0.45, 60), (0.50, 100)]

  const HANDOFF_RECOVERY := 0.55

  datatype RobustView = RobustView(mode: Mode, oldPeak: Option<real>, trough: Option<real>, target: int)

  const INITIAL := RobustView(Normal, None, None, 0)

  predicate FrozenTarget(target: int) {
    target in {0, 10, 30, 60, 100}
  }

  // What every machine reached from INITIAL satisfies.
  predicate Valid(s: RobustView) {
    && (s.oldPeak.Some? ==> s.oldPeak.value > 0.0)
    && FrozenTarget(s.target)
    && (s.mode.Normal? ==> s.target == 0 && s.trough.None?)
    && (!s.mode.Normal? ==>
          s.oldPeak.Some? && s.trough.Some? && 0.0 < s.trough.value <= 0.70 * s.oldPeak.value)
    && (s.mode.Crash? ==> s.target > 0)
    && (s.mode.PostHandoff? ==> s.target == 0)
  }

  function Max(a: real, b: real): real {
    if a >= b then a else b
  }

  function DrawdownFraction(price: real, oldPeak: real): real
    requires price > 0.0 && oldPeak > 0.0
  {
    Max(0.0, 1.0 - price / oldPeak)
  }

  function RecoveryFraction(price: real, oldPeak: real, trough: real): real
    requires price > 0.0 && 0.0 < trough <= oldPeak
  {
    if oldPeak - trough == 0.0 then 0.0 else (price - trough) / (oldPeak - trough)
  }

  // The step function the ladder loop computes.
  function LadderTarget(drawdown: real): (target: int)
    ensures FrozenTarget(target)
  {
    if drawdown >= 0.50 then 100
    else if drawdown >= 0.45 then 60
    else if drawdown >= 0.35 then 30
    else if drawdown >= 0.30 then 10
    else 0
  }

  method CrashTarget(drawdown: real) returns (target: int)
    ensures target == LadderTarget(drawdown)
  {
    target := 0;
    for i := 0 to |LEVELS|
      invariant target == if i == 0 || drawdown < LEVELS[0].0 then 0
                          else if i == 1 || drawdown < LEVELS[1].0 then 10
                          else if i == 2 || drawdown < LEVELS[2].0 then 30
                          else if i == 3 || drawdown < LEVELS[3].0 then 60
                          else 100
    {
      if drawdown >= LEVELS[i].0 {
        target := LEVELS[i].1;
      }
    }
  }

  // target_from_drawdown of recovery/core_return_v01.py: the same ladder behind a range check.
  method TargetFromDrawdown(drawdown: real) returns (r: Result<int, RobustError>)
    ensures r == if drawdown < 0.0 || drawdown > 1.0 then Err(DrawdownOutOfRange)
                 else Ok(LadderTarget(drawdown))
  {
    if drawdown < 0.0 || drawdown > 1.0 {
      return Err(DrawdownOutOfRange);
    }
    var target := CrashTarget(drawdown);
    return Ok(target);
  }

  lemma ScaleKeepsOrder(a: real, b: real, scale: real)
    requires scale > 0.0
    ensures a <= b <==> a * scale <= b * scale
  {
    if a <= b {
      assert (b - a) * scale >= 0.0;
    } else {
      assert (a - b) * scale > 0.0;
    }
  }

  lemma LadderReached(price: real, oldPeak: real)
    requires price > 0.0 && oldPeak > 0.0
    ensures 0.0 <= DrawdownFraction(price, oldPeak) <= 1.0
    ensures LadderTarget(DrawdownFraction(price, oldPeak)) > 0 <==> price <= 0.70 * oldPeak
  {
    var q := price / oldPeak;
    assert q * oldPeak == price;
    assert q >= 0.0;
    ScaleKeepsOrder(q, 0.70, oldPeak);
    assert q <= 0.70 <==> price <= 0.70 * oldPeak;
    assert 1.0 - q >= 0.30 <==> q <= 0.70;
    assert DrawdownFraction(price, oldPeak) >= 0.30 <==> 1.0 - q >= 0.30;
    ScaleKeepsOrder(0.0, q, oldPeak);
  }

  lemma HandoffReached(price: real, oldPeak: real, trough: real)
    requires price > 0.0 && 0.0 < trough < oldPeak
    ensures RecoveryFraction(price, oldPeak, trough) >= HANDOFF_RECOVERY
            <==> price - trough >= 0.55 * (oldPeak - trough)
  {
    var d := oldPeak - trough;
    var q := (price - trough) / d;
    assert q * d == price - trough;
    ScaleKeepsOrder(0.55, q, d);
  }

  // observe_close as a function of the state before and the close.
  function Observe(s: RobustView, price: real): (r: (RobustView, Decision))
    requires Valid(s) && price > 0.0
    ensures Valid(r.0)
    ensures r.1.mode == r.0.mode && r.1.target == r.0.target
  {
    var oldPeak := if s.oldPeak.None? then price else s.oldPeak.value;
    if s.mode.Normal? then
      var peak := Max(price, oldPeak);
      LadderReached(price, peak);
      var target := LadderTarget(DrawdownFraction(price, peak));
      if target > 0 then
        (RobustView(Crash, Some(peak), Some(price), target), Decision(Crash, target, Rotate))
      else
        (s.(oldPeak := Some(peak)), Decision(Normal, 0, NoAction))
    else if s.mode.Crash? then
      var trough := if price < s.trough.value then price else s.trough.value;
      var target := LadderTarget(DrawdownFraction(price, oldPeak));
      if target > s.target then
        (s.(trough := Some(trough), target := target), Decision(Crash, target, Rotate))
      else if RecoveryFraction(price, oldPeak, trough) >= HANDOFF_RECOVERY then
        (RobustView(PostHandoff, s.oldPeak, Some(trough), 0), Decision(PostHandoff, 0, Handoff))
      else
        (s.(trough := Some(trough)), Decision(Crash, s.target, NoAction))
    else if price >= oldPeak then
      (RobustView(Normal, Some(price), None, 0), Decision(Normal, 0, Rearm))
    else
      (s, Decision(PostHandoff, 0, NoAction))
  }

  // While a crash is running and has not handed off, the close is far below the
  // old peak: at least 13.5% of it.
  lemma CrashCloseIsLow(s: RobustView, price: real)
    requires Valid(s) && price > 0.0
    requires Observe(s, price).0.mode.Crash?
    ensures price <= 0.865 * Observe(s, price).0.oldPeak.value
  {
    var r := Observe(s, price).0;
    LadderReached(price, r.oldPeak.value);
    if s.mode.Crash? && !(price <= 0.70 * r.oldPeak.value) {
      HandoffReached(price, r.oldPeak.value, r.trough.value);
    }
  }

  // A close at or above the old peak always ends the crash.
  lemma PeakEndsCrash(s: RobustView, price: real)
    requires Valid(s) && s.mode.Crash? && price >= s.oldPeak.value
    ensures Observe(s, price).1.signal.Handoff?
  {
    if Observe(s, price).0.mode.Crash? {
      CrashCloseIsLow(s, price);
    }
  }

  // Ladder events only ever raise the target of a running crash.
  lemma RotateRaisesTarget(s: RobustView, price: real)
    requires Valid(s) && price > 0.0
    requires Observe(s, price).1.signal.Rotate?
    ensures Observe(s, price).0.mode.Crash?
    ensures Observe(s, price).0.target > s.target
    ensures Observe(s, price).0.target == LadderTarget(DrawdownFraction(price, Observe(s, price).0.oldPeak.value))
    ensures price <= 0.70 * Observe(s, price).0.oldPeak.value
  {
    LadderReached(price, Observe(s, price).0.oldPeak.value);
  }

  class RobustState {
    var mode: Mode
    var oldPeak: Option<real>
    var trough: Option<real>
    var target: int

    ghost function View(): RobustView
      reads this
    {
      RobustView(mode, oldPeak, trough, target)
    }

    constructor ()
      ensures View() == INITIAL
    {
      mode := Normal;
      oldPeak := None;
      trough := None;
      target := 0;
    }

    method ObserveClose(price: real) returns (r: Result<Decision, RobustError>)
      requires Valid(View())
      modifies this
      ensures Valid(View())
      ensures price <= 0.0 ==> r == Err(NonPositivePrice) && View() == old(View())
      ensures price > 0.0 ==> r.Ok? && (View(), r.value) == Observe(old(View()), price)
    {
      if price <= 0.0 {
        return Err(NonPositivePrice);
      }
      if oldPeak.None? {
        oldPeak := Some(price);
      }
      if mode.Normal? {
        oldPeak := Some(Max(price, oldPeak.value));
        LadderReached(price, oldPeak.value);
        var newTarget := CrashTarget(DrawdownFraction(price, oldPeak.value));
        if newTarget > 0 {
          mode := Crash;
          trough := Some(price);
          target := newTarget;
          return Ok(Decision(mode, target, Rotate));
        }
        return Ok(Decision(mode, 0, NoAction));
      }
      if mode.Crash? {
        trough := Some(if price < trough.value then price else trough.value);
        var newTarget := CrashTarget(DrawdownFraction(price, oldPeak.value));
        if newTarget > target {
          target := newTarget;
          return Ok(Decision(mode, target, Rotate));
        }
        if RecoveryFraction(price, oldPeak.value, trough.value) >= HANDOFF_RECOVERY {
          mode := PostHandoff;
          target := 0;
          return Ok(Decision(mode, 0, Handoff));
        }
        return Ok(Decision(mode, target, NoAction));
      }
      if price >= oldPeak.value {
        mode := Normal;
        oldPeak := Some(price);
        trough := None;
        target := 0;
        return Ok(Decision(mode, 0, Rearm));
      }
      return Ok(Decision(mode, 0, NoAction));
    }
  }
}
