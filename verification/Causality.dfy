// Both compilers are causal: closes appended to a history keep every compiled source event
// and every final event, and only add what their own signals cause.
module Causality {
  import opened Common
  import opened Robust
  import opened SourceCompiler
  import opened FinalSchedule

  ghost predicate Appended(was: seq<real>, now: seq<real>) {
    |was| <= |now| && now[..|was|] == was
  }

  /* ---- Source cycles ---- */

  // A cycle seen later: the same, except for events and a recovery dated from session n on.
  ghost predicate Grown(c: SourceCycle, d: SourceCycle, n: nat) {
    && d.cycleId == c.cycleId && d.oldAthDate == c.oldAthDate && d.oldAth == c.oldAth
    && |c.events| <= |d.events| && d.events[..|c.events|] == c.events
    && (forall j :: |c.events| <= j < |d.events| ==> d.events[j].signal >= n)
    && (if c.recovery.Some? then d.recovery == c.recovery
        else d.recovery.Some? ==> d.recovery.value >= n)
  }

  ghost predicate AllGrown(was: seq<SourceCycle>, now: seq<SourceCycle>, n: nat) {
    && |was| <= |now|
    && (forall i :: 0 <= i < |was| ==> Grown(was[i], now[i], n))
    && (forall i, j :: |was| <= i < |now| && 0 <= j < |now[i].events| ==> now[i].events[j].signal >= n)
  }

  lemma OneStepGrows(st: Compiler, closes: seq<real>, t: nat, sessionCount: nat)
    requires t < |closes| <= sessionCount && PositiveCloses(closes) && FoldInv(st, closes, t, sessionCount)
    requires Step(st, t, closes[t], sessionCount).Ok?
    ensures AllGrown(Cycles(st), Cycles(Step(st, t, closes[t], sessionCount).value), t)
  {
    hide Step, Observe, FoldInv, CompiledShape, CycleShape, RecoveryShape;
    InvFacts(st, closes, t, sessionCount);
    var price := closes[t];
    ObserveFacts(st.robust, price);
    match Observe(st.robust, price).1.signal
    case Rotate => var e := StepOnRotate(st, t, price, sessionCount);
    case Handoff => var e := StepOnHandoff(st, t, price, sessionCount);
    case Rearm => StepOtherwise(st, t, price, sessionCount);
    case NoAction => StepOtherwise(st, t, price, sessionCount);
  }

  lemma GrownTwice(a: seq<SourceCycle>, b: seq<SourceCycle>, c: seq<SourceCycle>, n: nat, m: nat)
    requires AllGrown(a, b, n) && AllGrown(b, c, m) && n <= m
    ensures AllGrown(a, c, n)
  {
    forall i | 0 <= i < |a| ensures Grown(a[i], c[i], n) {
      assert Grown(a[i], b[i], n) && Grown(b[i], c[i], m);
      assert c[i].events[..|a[i].events|] == b[i].events[..|a[i].events|];
      forall j | |a[i].events| <= j < |c[i].events| ensures c[i].events[j].signal >= n {
        if j < |b[i].events| {
          assert c[i].events[j] == b[i].events[j];
        }
      }
    }
    forall i, j | |a| <= i < |c| && 0 <= j < |c[i].events| ensures c[i].events[j].signal >= n {
      if i < |b| {
        assert Grown(b[i], c[i], m);
        if j < |b[i].events| {
          assert c[i].events[j] == b[i].events[j];
        }
      }
    }
  }

  // Rows already there are compiled as before.
  lemma {:induction false} SameFold(was: seq<real>, now: seq<real>, t: nat)
    requires Appended(was, now) && PositiveCloses(was) && PositiveCloses(now) && t <= |was|
    requires Fold(was, |was|, t).Ok?
    ensures Fold(now, |now|, t) == Fold(was, |was|, t)
  {
    hide Step, Valid;
    if t > 0 {
      SameFold(was, now, t - 1);
      assert now[t - 1] == was[t - 1];
      SameStep(Fold(was, |was|, t - 1).value, t - 1, was[t - 1], |was|, |now|);
    }
  }

  lemma SameStep(st: Compiler, index: nat, price: real, n: nat, m: nat)
    requires Valid(st.robust) && price > 0.0 && n <= m && Step(st, index, price, n).Ok?
    ensures Step(st, index, price, m) == Step(st, index, price, n)
  {
    hide Observe, DrawdownFraction, LadderTarget;
  }

  lemma {:induction false} FoldGrows(closes: seq<real>, n: nat, t: nat)
    requires PositiveCloses(closes) && n <= t <= |closes| && Fold(closes, |closes|, t).Ok?
    ensures Fold(closes, |closes|, n).Ok?
    ensures AllGrown(Cycles(Fold(closes, |closes|, n).value), Cycles(Fold(closes, |closes|, t).value), n)
    decreases t
  {
    hide Step, Cycles, FoldInv, AllGrown;
    if n == t {
      SameGrown(Cycles(Fold(closes, |closes|, n).value), n);
    } else {
      FoldGrows(closes, n, t - 1);
      FoldTotal(closes, |closes|, t - 1);
      var st := Fold(closes, |closes|, t - 1).value;
      OneStepGrows(st, closes, t - 1, |closes|);
      GrownTwice(Cycles(Fold(closes, |closes|, n).value), Cycles(st), Cycles(Fold(closes, |closes|, t).value), n, t - 1);
    }
  }

  lemma SameGrown(cycles: seq<SourceCycle>, n: nat)
    ensures AllGrown(cycles, cycles, n)
  {
  }

  // Every cycle and every source event compiled from the shorter history is compiled from
  // the longer one; anything more is dated in the appended part.
  lemma SourceCausality(was: seq<real>, now: seq<real>)
    requires Appended(was, now) && SourceCycles(was).Ok? && SourceCycles(now).Ok?
    ensures AllGrown(SourceCycles(was).value, SourceCycles(now).value, |was|)
  {
    hide Fold, Cycles, AllGrown;
    SameFold(was, now, |was|);
    FoldGrows(now, |was|, |now|);
  }

  /* ---- The final schedule ---- */

  lemma GrownLadder(c: SourceCycle, was: seq<real>, d: SourceCycle, now: seq<real>)
    requires PositiveCloses(was) && CycleShape(c, was, |was|, |was|)
    requires PositiveCloses(now) && CycleShape(d, now, |now|, |now|)
    requires Grown(c, d, |was|)
    ensures |Ladder(c)| <= |Ladder(d)| && Ladder(d)[..|Ladder(c)|] == Ladder(c)
    ensures forall j :: |Ladder(c)| <= j < |Ladder(d)| ==> Ladder(d)[j].signal >= |was|
    ensures First(c) == First(d)
  {
    AtMostFourRungs(d, now, |now|, |now|);
    if HandedOff(c) {
      assert d.events[|c.events| - 1] == Last(c.events);
      assert c.events == d.events;
    } else if |d.events| == |c.events| {
      assert c.events == d.events;
    } else {
      assert Ladder(d)[..|c.events|] == d.events[..|c.events|];
    }
  }

  // Scale-ups at or after the exit are discarded, and the kept ones are the same.
  lemma {:induction false} SameScales(c: SourceCycle, d: SourceCycle, a: seq<Delayed>, b: seq<Delayed>, fixedExit: nat)
    requires c.cycleId == d.cycleId && c.oldAthDate == d.oldAthDate
    requires |a| <= |b| && b[..|a|] == a && forall j :: |a| <= j < |b| ==> b[j].execution >= fixedExit
    ensures Scales(d, b, fixedExit) == Scales(c, a, fixedExit)
    decreases |b|
  {
    if |a| < |b| {
      assert DropLast(b)[..|a|] == a;
      SameScales(c, d, a, DropLast(b), fixedExit);
    } else if b != [] {
      assert a == b && DropLast(b) == DropLast(a);
      SameScales(c, d, DropLast(a), DropLast(b), fixedExit);
    }
  }

  lemma CycleKept(c: SourceCycle, was: seq<real>, d: SourceCycle, now: seq<real>)
    requires PositiveCloses(was) && CycleShape(c, was, |was|, |was|)
    requires PositiveCloses(now) && CycleShape(d, now, |now|, |now|)
    requires Grown(c, d, |was|) && |was| <= |now|
    requires CycleSchedule(c, |was|).Ok? && CycleSchedule(d, |now|).Ok?
    ensures CycleSchedule(d, |now|) == CycleSchedule(c, |was|)
  {
    hide CycleShape, CycleSchedule, Ladder, Scales, CycleEventsMean, CalendarReaches;
    CycleScheduleIs(c, was);
    CycleScheduleIs(d, now);
    GrownLadder(c, was, d, now);
    CycleScheduleMeaning(c, was);
    LadderSignals(c, was);
    InTime(c, was);
    if !RecoversFirst(c, BatchRecovery(c, |was|)) {
      var a, b := Delays(Ladder(c)), Delays(Ladder(d));
      assert b[..|a|] == a;
      SameScales(c, d, a, b, ExitSession(c));
      assert ExitSession(d) == ExitSession(c) < |was|;
      assert !RecoversFirst(d, BatchRecovery(d, |now|));
      assert ExitEvent(d, ExitSession(d)) == ExitEvent(c, ExitSession(c));
    } else {
      assert RecoversFirst(d, BatchRecovery(d, |now|));
    }
  }

  lemma InTime(c: SourceCycle, closes: seq<real>)
    requires CalendarReaches(c, BatchRecovery(c, |closes|), |closes|) && |Ladder(c)| > 0 && Ladder(c)[0].signal == First(c)
    ensures EntrySession(c) < |closes|
    ensures !RecoversFirst(c, BatchRecovery(c, |closes|)) ==> ExitSession(c) < |closes|
  {
    assert Maturity(Ladder(c)[0]) < |closes|;
  }

  // The shorter history's output is the part of the longer one's that its cycles fill.
  lemma {:induction false} OutputKept(a: seq<SourceCycle>, was: seq<real>, b: seq<SourceCycle>, now: seq<real>, i: nat)
    requires PositiveCloses(was) && CompiledShape(a, was, |was|, |was|)
    requires PositiveCloses(now) && CompiledShape(b, now, |now|, |now|)
    requires AllGrown(a, b, |was|) && |was| <= |now| && i <= |a|
    requires Output(a, |was|, i).Ok? && Output(b, |now|, i).Ok?
    ensures Output(b, |now|, i) == Output(a, |was|, i)
  {
    hide CompiledShape, CycleShape, CycleSchedule, Grown;
    if i > 0 {
      OutputKept(a, was, b, now, i - 1);
      ShapeAt(a, was, i - 1);
      ShapeAt(b, now, i - 1);
      CycleKept(a[i - 1], was, b[i - 1], now);
    }
  }

  // A final event that only the longer history can cause.
  ghost predicate NewEvent(e: FinalEvent, n: nat, oldCycles: nat) {
    && e.cycleId > oldCycles
    && e.finalExecution > n + ENTRY_DELAY
    && (if e.kind.FixedExit? then e.sourceSignal.None? else e.sourceSignal.Some? && e.sourceSignal.value >= n)
  }

  lemma {:induction false} ScalesNew(c: SourceCycle, ladder: seq<SourceEvent>, fixedExit: nat, n: nat, oldCycles: nat)
    requires c.cycleId > oldCycles && forall j :: 0 <= j < |ladder| ==> ladder[j].signal >= n
    ensures forall k :: 0 <= k < |Scales(c, Delays(ladder), fixedExit)| ==> NewEvent(Scales(c, Delays(ladder), fixedExit)[k], n, oldCycles)
  {
    if ladder != [] {
      assert DropLast(Delays(ladder)) == Delays(DropLast(ladder));
      ScalesNew(c, DropLast(ladder), fixedExit, n, oldCycles);
    }
  }

  lemma NewCycleEvents(c: SourceCycle, closes: seq<real>, n: nat, oldCycles: nat)
    requires PositiveCloses(closes) && CycleShape(c, closes, |closes|, |closes|) && CycleSchedule(c, |closes|).Ok?
    requires c.cycleId > oldCycles && forall j :: 0 <= j < |c.events| ==> c.events[j].signal >= n
    ensures forall k :: 0 <= k < |CycleSchedule(c, |closes|).value| ==> NewEvent(CycleSchedule(c, |closes|).value[k], n, oldCycles)
  {
    hide CycleShape, CycleSchedule, Scales, NewEvent;
    CycleScheduleIs(c, closes);
    LadderSignals(c, closes);
    ScalesNew(c, Ladder(c), ExitSession(c), n, oldCycles);
    assert First(c) >= n;
    ExitIsNew(c, n, oldCycles);
  }

  lemma ExitIsNew(c: SourceCycle, n: nat, oldCycles: nat)
    requires c.cycleId > oldCycles && First(c) >= n
    ensures NewEvent(ExitEvent(c, ExitSession(c)), n, oldCycles)
  {
  }

  lemma {:induction false} OutputAdds(b: seq<SourceCycle>, now: seq<real>, n: nat, oldCycles: nat, i: nat)
    requires PositiveCloses(now) && CompiledShape(b, now, |now|, |now|)
    requires oldCycles <= i <= |b| && Output(b, |now|, i).Ok?
    requires forall k, j :: oldCycles <= k < |b| && 0 <= j < |b[k].events| ==> b[k].events[j].signal >= n
    ensures Output(b, |now|, oldCycles).Ok?
    ensures var was, all := Output(b, |now|, oldCycles).value, Output(b, |now|, i).value;
            && |was| <= |all| && all[..|was|] == was
            && forall k :: |was| <= k < |all| ==> NewEvent(all[k], n, oldCycles)
    decreases i
  {
    hide CompiledShape, CycleShape, CycleSchedule, NewEvent;
    if oldCycles < i {
      OutputAdds(b, now, n, oldCycles, i - 1);
      ShapeAt(b, now, i - 1);
      NewCycleEvents(b[i - 1], now, n, oldCycles);
    }
  }

  lemma ScheduleIsOutput(closes: seq<real>)
    requires Schedule(closes).Ok?
    ensures SourceCycles(closes).Ok? && PositiveCloses(closes)
    ensures CompiledShape(SourceCycles(closes).value, closes, |closes|, |closes|)
    ensures Output(SourceCycles(closes).value, |closes|, |SourceCycles(closes).value|) == Ok(Schedule(closes).value)
  {
    hide CompiledShape, OutputMeans, CalendarReaches;
    CompilerIsTotal(closes);
    var cycles := SourceCycles(closes).value;
    OutputMeaning(cycles, closes, |cycles|);
    var output := Output(cycles, |closes|, |cycles|).value;
    OutputSorted(cycles, BatchRecoveries(cycles, |closes|), |cycles|, output);
    SortOfSorted(EarlierFinal, output);
  }

  lemma OutputSorted(cycles: seq<SourceCycle>, recoveries: seq<nat>, i: nat, events: seq<FinalEvent>)
    requires i <= |cycles| == |recoveries| && OutputMeans(cycles, recoveries, i, events)
    ensures SortedBy(EarlierFinal, events)
  {
    hide Scheduled;
  }

  lemma {:induction false} OutputPrefixOk(cycles: seq<SourceCycle>, sessionCount: nat, i: nat, j: nat)
    requires i <= j <= |cycles| && Output(cycles, sessionCount, j).Ok?
    ensures Output(cycles, sessionCount, i).Ok?
    decreases j
  {
    if i < j {
      OutputPrefixOk(cycles, sessionCount, i, j - 1);
    }
  }

  // The final schedule of the shorter history is a prefix of that of the longer one, and
  // every further event is caused by a signal in the appended part.
  lemma ScheduleCausality(was: seq<real>, now: seq<real>)
    requires Appended(was, now) && Schedule(was).Ok? && Schedule(now).Ok?
    ensures var a, b := Schedule(was).value, Schedule(now).value;
            && |a| <= |b| && b[..|a|] == a
            && forall k :: |a| <= k < |b| ==> NewEvent(b[k], |was|, |SourceCycles(was).value|)
  {
    hide Schedule, SourceCycles, CompiledShape, Output, NewEvent, Grown;
    ScheduleIsOutput(was);
    ScheduleIsOutput(now);
    SourceCausality(was, now);
    var a, b := SourceCycles(was).value, SourceCycles(now).value;
    OutputPrefixOk(b, |now|, |a|, |b|);
    OutputKept(a, was, b, now, |a|);
    OutputAdds(b, now, |was|, |a|, |b|);
  }
}
