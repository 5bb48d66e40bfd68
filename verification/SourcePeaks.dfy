// The ATH value a compiled cycle carries is the highest close since the last rearm, and so is
// the close at its ATH date exactly if that close was reached again.
module SourcePeaks {
  import opened Common
  import opened Robust
  import opened SourceCompiler
  import opened SourceMeaning

  // Where the peak of a cycle opened after these ones counts from.
  function RearmOf(done: seq<SourceCycle>): nat {
    if |done| > 0 && Last(done).recovery.Some? then Last(done).recovery.value else 0
  }

  // The cycle carries the highest close from the last rearm to its first signal.
  ghost predicate CarriesPeak(c: SourceCycle, rearm: nat, closes: seq<real>, t: nat)
    requires t <= |closes|
  {
    rearm <= First(c) < t && IsMax(closes, rearm, First(c) + 1, c.oldAth)
  }

  ghost predicate AllPeaks(cycles: seq<SourceCycle>, closes: seq<real>, t: nat)
    requires t <= |closes|
  {
    forall i :: 0 <= i < |cycles| ==> CarriesPeak(cycles[i], RearmOf(cycles[..i]), closes, t)
  }

  // In NORMAL the machine's peak is the highest close since the last rearm.
  ghost predicate IdlePeak(st: Compiler, closes: seq<real>, t: nat)
    requires t <= |closes|
  {
    t > 0 && st.active.None? ==>
      st.robust.oldPeak.Some? && RearmOf(st.completed) < t && IsMax(closes, RearmOf(st.completed), t, st.robust.oldPeak.value)
  }

  lemma PeaksWithNewest(done: seq<SourceCycle>, c: SourceCycle, closes: seq<real>, t: nat)
    requires t < |closes| && AllPeaks(done, closes, t) && CarriesPeak(c, RearmOf(done), closes, t + 1)
    ensures AllPeaks(done + [c], closes, t + 1)
  {
    hide IsMax, RearmOf;
    var cycles := done + [c];
    forall i | 0 <= i < |cycles| ensures CarriesPeak(cycles[i], RearmOf(cycles[..i]), closes, t + 1) {
      if i < |done| {
        assert cycles[..i] == done[..i] && CarriesPeak(done[i], RearmOf(done[..i]), closes, t);
      } else {
        assert cycles[..i] == done;
      }
    }
  }

  lemma PeaksOfFront(st: Compiler, closes: seq<real>, t: nat)
    requires t <= |closes| && AllPeaks(Cycles(st), closes, t)
    ensures AllPeaks(st.completed, closes, t)
    ensures st.active.Some? ==> CarriesPeak(st.active.value, RearmOf(st.completed), closes, t)
  {
    hide CarriesPeak;
    forall i | 0 <= i < |st.completed| ensures CarriesPeak(st.completed[i], RearmOf(st.completed[..i]), closes, t) {
      assert Cycles(st)[i] == st.completed[i] && Cycles(st)[..i] == st.completed[..i];
    }
    if st.active.Some? {
      assert Cycles(st)[|st.completed|] == st.active.value && Cycles(st)[..|st.completed|] == st.completed;
    }
  }

  lemma PeaksLater(cycles: seq<SourceCycle>, closes: seq<real>, t: nat)
    requires t < |closes| && AllPeaks(cycles, closes, t)
    ensures AllPeaks(cycles, closes, t + 1)
  {
    hide IsMax;
    forall i | 0 <= i < |cycles| ensures CarriesPeak(cycles[i], RearmOf(cycles[..i]), closes, t + 1) {
      assert CarriesPeak(cycles[i], RearmOf(cycles[..i]), closes, t);
    }
  }

  lemma OpensWithPeak(st: Compiler, closes: seq<real>, t: nat)
    requires t < |closes| && IdlePeak(st, closes, t) && st.active.None?
    requires t == 0 ==> st == START
    ensures var peak := if t == 0 then closes[0] else Robust.Max(closes[t], st.robust.oldPeak.value);
            RearmOf(st.completed) <= t && IsMax(closes, RearmOf(st.completed), t + 1, peak)
  {
    if t == 0 {
      OneClose(closes, 0);
    } else {
      MaxGrows(closes, RearmOf(st.completed), t, st.robust.oldPeak.value);
    }
  }

  lemma IdleObserve(s: RobustView, price: real)
    requires Valid(s) && price > 0.0
    ensures var r := Observe(s, price);
            && (s.mode.Normal? ==> r.0.oldPeak == Some(if s.oldPeak.None? then price else Robust.Max(price, s.oldPeak.value)))
            && (r.1.signal.Rearm? ==> r.0.oldPeak == Some(price))
  {
    hide DrawdownFraction, RecoveryFraction;
  }

  lemma RotatePeaks(st: Compiler, closes: seq<real>, t: nat, sessionCount: nat)
    requires t < |closes| <= sessionCount && PositiveCloses(closes) && FoldInv(st, closes, t, sessionCount)
    requires IdlePeak(st, closes, t) && AllPeaks(Cycles(st), closes, t)
    requires Observe(st.robust, closes[t]).1.signal.Rotate? && Step(st, t, closes[t], sessionCount).Ok?
    ensures var st' := Step(st, t, closes[t], sessionCount).value; st'.active.Some? && AllPeaks(Cycles(st'), closes, t + 1)
  {
    hide FoldInv, Step, Observe, IdlePeak, IsMax, AllPeaks, RearmOf;
    var price := closes[t];
    InvFacts(st, closes, t, sessionCount);
    EmptyStart(st, closes, t, sessionCount);
    PeaksOfFront(st, closes, t);
    var e := StepOnRotate(st, t, price, sessionCount);
    var c := LadderBuilder(st, t, price);
    var c' := c.(events := c.events + [e]);
    if st.active.None? {
      StartsAt(st, closes, t, sessionCount);
      OpensWithPeak(st, closes, t);
      IdleObserve(st.robust, price);
      assert First(c') == t;
    } else {
      assert First(c') == First(st.active.value);
    }
    PeaksWithNewest(st.completed, c', closes, t);
  }

  lemma StartsAt(st: Compiler, closes: seq<real>, t: nat, sessionCount: nat)
    requires t <= |closes| && PositiveCloses(closes) && FoldInv(st, closes, t, sessionCount)
    ensures t == 0 ==> st == START
    ensures t > 0 ==> st.robust.oldPeak.Some?
  {
  }

  lemma HandoffPeaks(st: Compiler, closes: seq<real>, t: nat, sessionCount: nat)
    requires t < |closes| <= sessionCount && PositiveCloses(closes) && FoldInv(st, closes, t, sessionCount)
    requires AllPeaks(Cycles(st), closes, t)
    requires Observe(st.robust, closes[t]).1.signal.Handoff? && Step(st, t, closes[t], sessionCount).Ok?
    ensures var st' := Step(st, t, closes[t], sessionCount).value; st'.active.Some? && AllPeaks(Cycles(st'), closes, t + 1)
  {
    hide FoldInv, Step, Observe, IsMax, AllPeaks, RearmOf;
    InvFacts(st, closes, t, sessionCount);
    ObserveFacts(st.robust, closes[t]);
    PeaksOfFront(st, closes, t);
    var c := st.active.value;
    var e := StepOnHandoff(st, t, closes[t], sessionCount);
    var c' := c.(events := c.events + [e]);
    assert First(c') == First(c);
    PeaksWithNewest(st.completed, c', closes, t);
  }

  lemma RearmPeaks(st: Compiler, closes: seq<real>, t: nat, sessionCount: nat)
    requires t < |closes| <= sessionCount && PositiveCloses(closes) && FoldInv(st, closes, t, sessionCount)
    requires AllPeaks(Cycles(st), closes, t) && Observe(st.robust, closes[t]).1.signal.Rearm?
    ensures Step(st, t, closes[t], sessionCount).Ok?
    ensures var st' := Step(st, t, closes[t], sessionCount).value; IdlePeak(st', closes, t + 1) && AllPeaks(Cycles(st'), closes, t + 1)
  {
    hide FoldInv, Step, Observe, IsMax, AllPeaks;
    InvFacts(st, closes, t, sessionCount);
    ObserveFacts(st.robust, closes[t]);
    IdleObserve(st.robust, closes[t]);
    PeaksOfFront(st, closes, t);
    StepOtherwise(st, t, closes[t], sessionCount);
    var c := st.active.value;
    var c' := c.(recovery := Some(t));
    assert First(c') == First(c);
    PeaksWithNewest(st.completed, c', closes, t);
    OneClose(closes, t);
    var st' := Step(st, t, closes[t], sessionCount).value;
    assert Cycles(st') == st.completed + [c'];
  }

  lemma QuietPeaks(st: Compiler, closes: seq<real>, t: nat, sessionCount: nat)
    requires t < |closes| <= sessionCount && PositiveCloses(closes) && FoldInv(st, closes, t, sessionCount)
    requires IdlePeak(st, closes, t) && AllPeaks(Cycles(st), closes, t) && Observe(st.robust, closes[t]).1.signal.NoAction?
    ensures Step(st, t, closes[t], sessionCount).Ok?
    ensures var st' := Step(st, t, closes[t], sessionCount).value; IdlePeak(st', closes, t + 1) && AllPeaks(Cycles(st'), closes, t + 1)
  {
    hide FoldInv, Step, Observe, IsMax, AllPeaks;
    InvFacts(st, closes, t, sessionCount);
    StartsAt(st, closes, t, sessionCount);
    StepOtherwise(st, t, closes[t], sessionCount);
    PeaksLater(Cycles(st), closes, t);
    if st.active.None? {
      OpensWithPeak(st, closes, t);
      IdleObserve(st.robust, closes[t]);
    }
  }

  lemma {:induction false} FoldPeaks(closes: seq<real>, sessionCount: nat, t: nat)
    requires t <= |closes| <= sessionCount && PositiveCloses(closes) && Fold(closes, sessionCount, t).Ok?
    ensures var st := Fold(closes, sessionCount, t).value; IdlePeak(st, closes, t) && AllPeaks(Cycles(st), closes, t)
  {
    hide FoldInv, Step, IdlePeak, AllPeaks, Observe;
    if t == 0 {
      NoPeaks(closes);
    } else {
      FoldPeaks(closes, sessionCount, t - 1);
      FoldTotal(closes, sessionCount, t - 1);
      var st := Fold(closes, sessionCount, t - 1).value;
      PositiveAt(closes, t - 1);
      match Observe(st.robust, closes[t - 1]).1.signal
      case Rotate =>
        RotatePeaks(st, closes, t - 1, sessionCount);
        NotIdle(Fold(closes, sessionCount, t).value, closes, t);
      case Handoff =>
        HandoffPeaks(st, closes, t - 1, sessionCount);
        NotIdle(Fold(closes, sessionCount, t).value, closes, t);
      case Rearm => RearmPeaks(st, closes, t - 1, sessionCount);
      case NoAction => QuietPeaks(st, closes, t - 1, sessionCount);
    }
  }

  lemma NoPeaks(closes: seq<real>)
    ensures IdlePeak(START, closes, 0) && AllPeaks(Cycles(START), closes, 0)
  {
  }

  lemma NotIdle(st: Compiler, closes: seq<real>, t: nat)
    requires t <= |closes| && st.active.Some?
    ensures IdlePeak(st, closes, t)
  {
  }

  // The highest close so far, at the date the cycle carries, is reached again from the rearm on.
  ghost predicate Regained(c: SourceCycle, rearm: nat, closes: seq<real>) {
    c.oldAthDate < |closes| && exists u :: rearm <= u <= First(c) && u < |closes| && closes[u] == closes[c.oldAthDate]
  }

  // Every compiled cycle carries the highest close since the last rearm; it is the close at the
  // cycle's ATH date exactly if that close was reached again since.
  lemma CarriedAth(closes: seq<real>, i: nat)
    requires SourceCycles(closes).Ok? && i < |SourceCycles(closes).value|
    ensures var cycles := SourceCycles(closes).value;
            var c, rearm := cycles[i], RearmOf(cycles[..i]);
            && PositiveCloses(closes) && Measured(c, closes, |closes|)
            && CarriesPeak(c, rearm, closes, |closes|)
            && c.oldAthDate < |closes|
            && (c.oldAth == closes[c.oldAthDate] <==> Regained(c, rearm, closes))
  {
    hide AllMeasured, AllPeaks, IdlePeak, RearmOf;
    var cycles := SourceCycles(closes).value;
    FoldPeaks(closes, |closes|, |closes|);
    CompiledNumbers(closes);
    PeakAt(cycles, closes, i);
    var c, rearm := cycles[i], RearmOf(cycles[..i]);
    ComparedAth(c, rearm, closes);
  }

  lemma PeakAt(cycles: seq<SourceCycle>, closes: seq<real>, i: nat)
    requires i < |cycles| && PositiveCloses(closes) && AllPeaks(cycles, closes, |closes|) && AllMeasured(cycles, closes, |closes|)
    ensures CarriesPeak(cycles[i], RearmOf(cycles[..i]), closes, |closes|) && Measured(cycles[i], closes, |closes|)
  {
  }

  lemma ComparedAth(c: SourceCycle, rearm: nat, closes: seq<real>)
    requires PositiveCloses(closes) && CarriesPeak(c, rearm, closes, |closes|) && Measured(c, closes, |closes|)
    ensures c.oldAth == closes[c.oldAthDate] <==> Regained(c, rearm, closes)
  {
    var u :| rearm <= u < First(c) + 1 && closes[u] == c.oldAth;
  }
}
