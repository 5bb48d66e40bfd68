// What compile_source_cycles computes, told on the closes alone: where each crash begins, which
// closes raise the ladder, which one hands off and which one recovers.  The compiled cycles are
// the only ones the closes tell.
module CycleStory {
  import opened Common
  import opened Robust
  import opened SourceCompiler
  import opened SourceMeaning
  import opened SourcePeaks

  // The session at which the ladder of a cycle ends.
  function EndOf(c: SourceCycle, t: nat): nat {
    if HandedOff(c) then Last(c.events).signal else t
  }

  // The ladder events are exactly the closes that raise the rung before the handoff.
  ghost predicate LadderIs(c: SourceCycle, closes: seq<real>, t: nat)
    requires t <= |closes|
  {
    var ladder := Ladder(c);
    && (forall j :: 0 <= j < |ladder| ==> RungEvent(ladder[j], c, closes, t))
    && (forall u :: First(c) <= u < EndOf(c, t) && u < t && Raises(closes, First(c), u, c.oldAth) ==> SignalledAt(ladder, u))
  }

  ghost predicate RungEvent(e: SourceEvent, c: SourceCycle, closes: seq<real>, t: nat)
    requires t <= |closes|
  {
    && e.kind.EntryOrScale? && First(c) <= e.signal < EndOf(c, t) && e.signal < t
    && Raises(closes, First(c), e.signal, c.oldAth) && e.target == PriceRung(closes[e.signal], c.oldAth)
  }

  ghost predicate SignalledAt(events: seq<SourceEvent>, u: nat) {
    exists j :: 0 <= j < |events| && events[j].signal == u
  }

  // How the crash ends: its first handoff, or none yet.
  ghost predicate HandoffIs(c: SourceCycle, closes: seq<real>, t: nat)
    requires t <= |closes|
  {
    if HandedOff(c) then
      Last(c.events).signal < t && Last(c.events).target == 0 && HandsFirst(closes, First(c), Last(c.events).signal, c.oldAth)
    else NoHandoff(closes, First(c), t, c.oldAth)
  }

  // The recovery is the first close back at the old ATH after the handoff.
  ghost predicate RecoveryIs(c: SourceCycle, closes: seq<real>, t: nat)
    requires t <= |closes|
  {
    && (c.recovery.Some? ==>
          && HandedOff(c) && Last(c.events).signal < c.recovery.value < t
          && closes[c.recovery.value] >= c.oldAth && Below(closes, Last(c.events).signal, c.recovery.value, c.oldAth))
    && (c.recovery.None? && HandedOff(c) ==> Below(closes, Last(c.events).signal, t, c.oldAth))
  }

  ghost predicate CycleIs(c: SourceCycle, rearm: nat, closes: seq<real>, t: nat)
    requires t <= |closes|
  {
    && |Ladder(c)| > 0 && First(c) < t && Begins(closes, rearm, First(c), c.oldAth)
    && LadderIs(c, closes, t) && HandoffIs(c, closes, t) && RecoveryIs(c, closes, t)
  }

  // All cycles so far, the last one possibly still running; after the last recovery nothing falls.
  ghost predicate Told(cycles: seq<SourceCycle>, closes: seq<real>, t: nat)
    requires t <= |closes|
  {
    && (forall i :: 0 <= i < |cycles| ==> CycleIs(cycles[i], RearmOf(cycles[..i]), closes, t))
    && (forall i :: 0 <= i < |cycles| - 1 ==> cycles[i].recovery.Some?)
    && (cycles == [] || Last(cycles).recovery.Some? ==> NoFall(closes, RearmOf(cycles), t))
  }

  /* ---- The compiler tells it ---- */

  function StartOf(st: Compiler): nat {
    if st.active.Some? then First(st.active.value) else 0
  }

  function HandoffOf(st: Compiler): nat {
    if st.active.Some? && HandedOff(st.active.value) then Last(st.active.value.events).signal else 0
  }

  // The machine means what it does from the builders' own dates.
  ghost predicate Anchored(st: Compiler, closes: seq<real>, t: nat)
    requires t <= |closes|
  {
    && (t > 0 ==> Means(st.robust, closes, t, RearmOf(st.completed), StartOf(st), HandoffOf(st)))
    && (forall i :: 0 <= i < |st.completed| ==> CycleIs(st.completed[i], RearmOf(st.completed[..i]), closes, t))
    && (st.active.Some? ==> CycleIs(st.active.value, RearmOf(st.completed), closes, t) && st.active.value.recovery.None?)
  }

  // A recovered cycle is told for good.
  lemma RecoveredStays(c: SourceCycle, rearm: nat, closes: seq<real>, t: nat)
    requires t < |closes| && CycleIs(c, rearm, closes, t) && c.recovery.Some?
    ensures CycleIs(c, rearm, closes, t + 1)
  {
    hide Begins, Raises, HandsFirst, Below;
    forall j | 0 <= j < |Ladder(c)| ensures RungEvent(Ladder(c)[j], c, closes, t + 1) {
      assert RungEvent(Ladder(c)[j], c, closes, t);
    }
  }

  lemma CompletedStay(st: Compiler, closes: seq<real>, t: nat)
    requires t < |closes| && Anchored(st, closes, t) && forall i :: 0 <= i < |st.completed| ==> st.completed[i].recovery.Some?
    ensures forall i :: 0 <= i < |st.completed| ==> CycleIs(st.completed[i], RearmOf(st.completed[..i]), closes, t + 1)
  {
    hide CycleIs, Means;
    forall i | 0 <= i < |st.completed| ensures CycleIs(st.completed[i], RearmOf(st.completed[..i]), closes, t + 1) {
      RecoveredStays(st.completed[i], RearmOf(st.completed[..i]), closes, t);
    }
  }

  // A close that raises the rung joins the ladder.
  lemma LadderGrows(c: SourceCycle, e: SourceEvent, closes: seq<real>, t: nat)
    requires t < |closes| && !HandedOff(c) && c.recovery.None? && e.kind.EntryOrScale? && e.signal == t
    requires c.events != [] ==> LadderIs(c, closes, t) && First(c) < t
    requires var c' := c.(events := c.events + [e]); Raises(closes, First(c'), t, c.oldAth) && e.target == PriceRung(closes[t], c.oldAth)
    ensures var c' := c.(events := c.events + [e]);
            LadderIs(c', closes, t + 1) && Ladder(c') == c.events + [e] && !HandedOff(c') && First(c') == if c.events == [] then t else First(c)
  {
    hide Raises, PriceRung;
    var c' := c.(events := c.events + [e]);
    assert Last(c'.events) == e;
    assert c.events != [] ==> Ladder(c) == c.events;
    forall j | 0 <= j < |Ladder(c')| ensures RungEvent(Ladder(c')[j], c', closes, t + 1) {
      if j < |c.events| {
        assert RungEvent(c.events[j], c, closes, t);
      }
    }
    forall u | First(c') <= u < t + 1 && Raises(closes, First(c'), u, c.oldAth) ensures SignalledAt(Ladder(c'), u) {
      if u < t {
        var j :| 0 <= j < |c.events| && c.events[j].signal == u;
        assert Ladder(c')[j].signal == u;
      } else {
        assert Ladder(c')[|c.events|].signal == u;
      }
    }
  }

  // A close that does not raise it leaves the ladder alone.
  lemma LadderWaits(c: SourceCycle, closes: seq<real>, t: nat)
    requires t < |closes| && LadderIs(c, closes, t) && First(c) < t && (HandedOff(c) ==> Last(c.events).signal < t)
    requires !HandedOff(c) ==> !Raises(closes, First(c), t, c.oldAth)
    ensures LadderIs(c, closes, t + 1)
  {
    hide Raises, PriceRung;
    forall j | 0 <= j < |Ladder(c)| ensures RungEvent(Ladder(c)[j], c, closes, t + 1) {
      assert RungEvent(Ladder(c)[j], c, closes, t);
    }
  }

  // The handoff closes the ladder.
  lemma LadderEnds(c: SourceCycle, e: SourceEvent, closes: seq<real>, t: nat)
    requires t < |closes| && !HandedOff(c) && c.events != [] && e.kind.HandoffEvent? && e.signal == t && LadderIs(c, closes, t) && First(c) < t
    ensures var c' := c.(events := c.events + [e]);
            LadderIs(c', closes, t + 1) && Ladder(c') == c.events && HandedOff(c') && Last(c'.events) == e && First(c') == First(c)
  {
    hide Raises, PriceRung;
    var c' := c.(events := c.events + [e]);
    assert Last(c'.events) == e && Ladder(c') == c.events == Ladder(c);
    forall j | 0 <= j < |Ladder(c')| ensures RungEvent(Ladder(c')[j], c', closes, t + 1) {
      assert RungEvent(Ladder(c)[j], c, closes, t);
    }
  }

  lemma RotateTells(st: Compiler, closes: seq<real>, t: nat, sessionCount: nat)
    requires t < |closes| <= sessionCount && PositiveCloses(closes) && FoldInv(st, closes, t, sessionCount) && Anchored(st, closes, t)
    requires Observe(st.robust, closes[t]).1.signal.Rotate? && Step(st, t, closes[t], sessionCount).Ok?
    ensures Anchored(Step(st, t, closes[t], sessionCount).value, closes, t + 1)
  {
    hide FoldInv, Step, Observe, LadderIs, Begins, IsMax, IsMin, IsTopRung, Raises, Hands, NoFall, HandsFirst, Below, NoHandoff, PriceRung, Falls, RearmOf;
    var price := closes[t];
    InvFacts(st, closes, t, sessionCount);
    StartsAt(st, closes, t, sessionCount);
    ObserveFacts(st.robust, price);
    CompletedStay(st, closes, t);
    NotAtFirst(st, closes, t);
    var e := StepOnRotate(st, t, price, sessionCount);
    RungIs(price, Observe(st.robust, price).0.oldPeak.value);
    var rearmed, start, handoff := NextMeans(st.robust, closes, t, RearmOf(st.completed), StartOf(st), HandoffOf(st));
    var c := LadderBuilder(st, t, price);
    RaisesAtStart(closes, t, c.oldAth);
    LadderGrows(c, e, closes, t);
  }

  // The first close of a history signals nothing.
  lemma NotAtFirst(st: Compiler, closes: seq<real>, t: nat)
    requires t < |closes| && PositiveCloses(closes) && Valid(st.robust) && (t == 0 ==> st == START)
    ensures Observe(st.robust, closes[t]).1.signal != NoAction ==> t > 0
  {
    if t == 0 {
      LadderReached(closes[0], closes[0]);
    }
  }

  lemma RaisesAtStart(closes: seq<real>, t: nat, peak: real)
    requires t < |closes|
    ensures Raises(closes, t, t, peak) <==> PriceRung(closes[t], peak) > 0
  {
  }

  lemma HandoffTells(st: Compiler, closes: seq<real>, t: nat, sessionCount: nat)
    requires t < |closes| <= sessionCount && PositiveCloses(closes) && FoldInv(st, closes, t, sessionCount) && Anchored(st, closes, t)
    requires Observe(st.robust, closes[t]).1.signal.Handoff? && Step(st, t, closes[t], sessionCount).Ok?
    ensures Anchored(Step(st, t, closes[t], sessionCount).value, closes, t + 1)
  {
    hide FoldInv, Step, Observe, LadderIs, Begins, IsMax, IsMin, IsTopRung, Raises, Hands, NoFall, HandsFirst, Below, NoHandoff, PriceRung, Falls, RearmOf;
    InvFacts(st, closes, t, sessionCount);
    StartsAt(st, closes, t, sessionCount);
    ObserveFacts(st.robust, closes[t]);
    CompletedStay(st, closes, t);
    NotAtFirst(st, closes, t);
    var e := StepOnHandoff(st, t, closes[t], sessionCount);
    var rearmed, start, handoff := NextMeans(st.robust, closes, t, RearmOf(st.completed), StartOf(st), HandoffOf(st));
    LadderEnds(st.active.value, e, closes, t);
    NothingBetween(closes, t, st.active.value.oldAth);
  }

  lemma NothingBetween(closes: seq<real>, t: nat, level: real)
    requires t < |closes|
    ensures Below(closes, t, t + 1, level)
  {
  }

  lemma RearmTells(st: Compiler, closes: seq<real>, t: nat, sessionCount: nat)
    requires t < |closes| <= sessionCount && PositiveCloses(closes) && FoldInv(st, closes, t, sessionCount) && Anchored(st, closes, t)
    requires Observe(st.robust, closes[t]).1.signal.Rearm?
    ensures Step(st, t, closes[t], sessionCount).Ok? && Anchored(Step(st, t, closes[t], sessionCount).value, closes, t + 1)
  {
    hide FoldInv, Step, Observe, Begins, IsMax, IsMin, IsTopRung, Raises, Hands, NoFall, HandsFirst, NoHandoff, PriceRung, Falls, LadderIs, RearmOf;
    InvFacts(st, closes, t, sessionCount);
    StartsAt(st, closes, t, sessionCount);
    ObserveFacts(st.robust, closes[t]);
    CompletedStay(st, closes, t);
    NotAtFirst(st, closes, t);
    StepOtherwise(st, t, closes[t], sessionCount);
    var rearmed, start, handoff := NextMeans(st.robust, closes, t, RearmOf(st.completed), StartOf(st), HandoffOf(st));
    var c := st.active.value;
    var c' := c.(recovery := Some(t));
    RecoveredTells(c, RearmOf(st.completed), closes, t);
    CompletedAdd(st.completed, c', closes, t + 1);
    RearmAdded(st.completed, c', t);
  }

  lemma RearmAdded(done: seq<SourceCycle>, c: SourceCycle, t: nat)
    requires c.recovery == Some(t)
    ensures RearmOf(done + [c]) == t
  {
  }

  lemma RecoveredTells(c: SourceCycle, rearm: nat, closes: seq<real>, t: nat)
    requires t < |closes| && CycleIs(c, rearm, closes, t) && c.recovery.None? && HandedOff(c) && closes[t] >= c.oldAth
    ensures CycleIs(c.(recovery := Some(t)), rearm, closes, t + 1)
  {
    hide Begins, Raises, HandsFirst;
    var c' := c.(recovery := Some(t));
    LadderWaits(c, closes, t);
    assert Ladder(c') == Ladder(c);
    forall j | 0 <= j < |Ladder(c')| ensures RungEvent(Ladder(c')[j], c', closes, t + 1) {
      assert RungEvent(Ladder(c)[j], c, closes, t + 1);
    }
  }

  lemma CompletedAdd(done: seq<SourceCycle>, c: SourceCycle, closes: seq<real>, t: nat)
    requires t <= |closes| && CycleIs(c, RearmOf(done), closes, t)
    requires forall i :: 0 <= i < |done| ==> CycleIs(done[i], RearmOf(done[..i]), closes, t)
    ensures forall i :: 0 <= i < |done + [c]| ==> CycleIs((done + [c])[i], RearmOf((done + [c])[..i]), closes, t)
  {
    hide CycleIs, RearmOf;
    var all := done + [c];
    forall i | 0 <= i < |all| ensures CycleIs(all[i], RearmOf(all[..i]), closes, t) {
      assert all[..i] == if i < |done| then done[..i] else done;
    }
  }

  lemma QuietTells(st: Compiler, closes: seq<real>, t: nat, sessionCount: nat)
    requires t < |closes| <= sessionCount && PositiveCloses(closes) && FoldInv(st, closes, t, sessionCount) && Anchored(st, closes, t)
    requires Observe(st.robust, closes[t]).1.signal.NoAction?
    ensures Step(st, t, closes[t], sessionCount).Ok? && Anchored(Step(st, t, closes[t], sessionCount).value, closes, t + 1)
  {
    hide FoldInv, Step, Observe, LadderIs, Begins, IsMax, IsMin, IsTopRung, Raises, NoFall, HandsFirst, Below, NoHandoff, PriceRung, Falls, RearmOf;
    InvFacts(st, closes, t, sessionCount);
    StartsAt(st, closes, t, sessionCount);
    ObserveFacts(st.robust, closes[t]);
    CompletedStay(st, closes, t);
    StepOtherwise(st, t, closes[t], sessionCount);
    if t == 0 {
      FirstTells(st, closes);
    } else {
      var rearmed, start, handoff := NextMeans(st.robust, closes, t, RearmOf(st.completed), StartOf(st), HandoffOf(st));
      if st.active.Some? {
        LadderWaits(st.active.value, closes, t);
      }
    }
  }

  lemma FirstTells(st: Compiler, closes: seq<real>)
    requires |closes| > 0 && PositiveCloses(closes) && st == START
    ensures Means(Observe(st.robust, closes[0]).0, closes, 1, 0, 0, 0) && RearmOf([]) == 0
  {
    hide Means;
    FirstClose(closes);
    assert Observed(closes, 0) == INITIAL;
  }

  lemma {:induction false} FoldTells(closes: seq<real>, sessionCount: nat, t: nat)
    requires t <= |closes| <= sessionCount && PositiveCloses(closes) && Fold(closes, sessionCount, t).Ok?
    ensures Anchored(Fold(closes, sessionCount, t).value, closes, t)
  {
    hide FoldInv, Step, Anchored, Observe;
    if t == 0 {
      NothingTold(closes);
    } else {
      FoldTells(closes, sessionCount, t - 1);
      FoldTotal(closes, sessionCount, t - 1);
      var st := Fold(closes, sessionCount, t - 1).value;
      PositiveAt(closes, t - 1);
      match Observe(st.robust, closes[t - 1]).1.signal
      case Rotate => RotateTells(st, closes, t - 1, sessionCount);
      case Handoff => HandoffTells(st, closes, t - 1, sessionCount);
      case Rearm => RearmTells(st, closes, t - 1, sessionCount);
      case NoAction => QuietTells(st, closes, t - 1, sessionCount);
    }
  }

  lemma NothingTold(closes: seq<real>)
    ensures Anchored(START, closes, 0)
  {
  }

  // The compiled cycles tell the closes.
  lemma CompiledTold(closes: seq<real>)
    requires SourceCycles(closes).Ok?
    ensures Told(SourceCycles(closes).value, closes, |closes|)
  {
    hide FoldInv, CycleIs, IsMax, IsMin, IsTopRung, Begins, HandsFirst, NoHandoff, Below, NoFall;
    var n := |closes|;
    FoldTells(closes, n, n);
    FoldTotal(closes, n, n);
    var st := Fold(closes, n, n).value;
    InvFacts(st, closes, n, n);
    if st.active.Some? {
      CompletedAdd(st.completed, st.active.value, closes, n);
    } else {
      assert st.completed + [] == st.completed;
    }
  }

  /* ---- The closes tell nothing else ---- */

  // The numbers a cycle carries: the first highest close before it, and what each event says.
  ghost predicate Dated(c: SourceCycle, id: nat, closes: seq<real>)
    requires PositiveCloses(closes)
  {
    && c.cycleId == id && c.oldAth > 0.0
    && c.oldAthDate <= First(c) < |closes|
    && (forall u :: 0 <= u <= First(c) ==> closes[u] <= closes[c.oldAthDate])
    && (forall u :: 0 <= u < c.oldAthDate ==> closes[u] < closes[c.oldAthDate])
    && (forall j :: 0 <= j < |c.events| ==> EventIs(c.events[j], c, closes))
    && (forall j, k :: 0 <= j < k < |c.events| ==> c.events[j].signal < c.events[k].signal)
  }

  ghost predicate EventIs(e: SourceEvent, c: SourceCycle, closes: seq<real>)
    requires PositiveCloses(closes) && c.oldAth > 0.0
  {
    && e.cycleId == c.cycleId && e.oldAthDate == c.oldAthDate && e.oldAth == c.oldAth
    && e.signal < |closes| && e.execution == e.signal + 1
    && e.drawdown == Robust.Max(0.0, 1.0 - closes[e.signal] / c.oldAth)
  }

  // The whole account: every cycle in turn, and its numbers.
  ghost predicate Story(cycles: seq<SourceCycle>, closes: seq<real>) {
    && PositiveCloses(closes) && Told(cycles, closes, |closes|)
    && forall i :: 0 <= i < |cycles| ==> Dated(cycles[i], i + 1, closes)
  }

  lemma SameMax(closes: seq<real>, a: nat, b: nat, x: real, y: real)
    requires b <= |closes| && IsMax(closes, a, b, x) && IsMax(closes, a, b, y)
    ensures x == y
  {
  }

  lemma SameStart(closes: seq<real>, rearm: nat, s: nat, x: real, u: nat, y: real)
    requires s < |closes| && u < |closes| && Begins(closes, rearm, s, x) && Begins(closes, rearm, u, y)
    ensures s == u && x == y
  {
    hide Falls, IsMax;
    assert !(s < u) && !(u < s);
    SameMax(closes, rearm, s + 1, x, y);
  }

  // Two cycles told from the same rearm begin, hand off and recover alike.
  lemma SameDates(a: SourceCycle, b: SourceCycle, rearm: nat, closes: seq<real>, t: nat)
    requires t <= |closes| && CycleIs(a, rearm, closes, t) && CycleIs(b, rearm, closes, t)
    ensures First(a) == First(b) && a.oldAth == b.oldAth && (HandedOff(a) <==> HandedOff(b))
    ensures EndOf(a, t) == EndOf(b, t) && a.recovery == b.recovery
  {
    hide Begins, Hands, LadderIs, First;
    SameStart(closes, rearm, First(a), a.oldAth, First(b), b.oldAth);
    SameHandoff(a, b, closes, t);
    SameRecovery(a, b, closes, t);
  }

  lemma SameHandoff(a: SourceCycle, b: SourceCycle, closes: seq<real>, t: nat)
    requires t <= |closes| && HandoffIs(a, closes, t) && HandoffIs(b, closes, t) && First(a) == First(b) && a.oldAth == b.oldAth
    ensures (HandedOff(a) <==> HandedOff(b)) && EndOf(a, t) == EndOf(b, t)
  {
    hide Hands, First;
    if HandedOff(a) {
      assert Hands(closes, First(a), Last(a.events).signal, a.oldAth);
    }
    if HandedOff(b) {
      assert Hands(closes, First(b), Last(b.events).signal, b.oldAth);
    }
    if HandedOff(a) && HandedOff(b) {
      assert !(Last(a.events).signal < Last(b.events).signal) && !(Last(b.events).signal < Last(a.events).signal);
    }
  }

  lemma SameRecovery(a: SourceCycle, b: SourceCycle, closes: seq<real>, t: nat)
    requires t <= |closes| && RecoveryIs(a, closes, t) && RecoveryIs(b, closes, t) && a.oldAth == b.oldAth
    requires (HandedOff(a) <==> HandedOff(b)) && EndOf(a, t) == EndOf(b, t)
    ensures a.recovery == b.recovery
  {
    if a.recovery.Some? && b.recovery.Some? {
      assert !(a.recovery.value < b.recovery.value) && !(b.recovery.value < a.recovery.value);
    }
  }

  ghost predicate Rising(signals: seq<nat>) {
    forall j, k :: 0 <= j < k < |signals| ==> signals[j] < signals[k]
  }

  lemma {:induction false} SameRising(a: seq<nat>, b: seq<nat>)
    requires Rising(a) && Rising(b) && forall u :: u in a <==> u in b
    ensures a == b
  {
    if a != [] || b != [] {
      assert a != [] ==> a[0] in b;
      assert b != [] ==> b[0] in a;
      LastIsMost(a, b);
      LastIsMost(b, a);
      var a', b' := DropLast(a), DropLast(b);
      forall u ensures u in a' <==> u in b' {
        FrontOfRising(a, u);
        FrontOfRising(b, u);
      }
      SameRising(a', b');
      assert a == a' + [Last(a)] && b == b' + [Last(b)];
    }
  }

  lemma LastIsMost(a: seq<nat>, b: seq<nat>)
    requires Rising(b) && a != [] && b != [] && forall u :: u in a ==> u in b
    ensures Last(a) <= Last(b)
  {
    assert Last(a) in b;
    var k :| 0 <= k < |b| && b[k] == Last(a);
  }

  lemma FrontOfRising(a: seq<nat>, u: nat)
    requires Rising(a) && a != []
    ensures u in DropLast(a) <==> u in a && u != Last(a)
  {
    if u in DropLast(a) {
      var k :| 0 <= k < |a| - 1 && a[k] == u;
    }
  }

  function SignalsOf(events: seq<SourceEvent>): seq<nat> {
    seq(|events|, j requires 0 <= j < |events| => events[j].signal)
  }

  lemma LadderSignalled(c: SourceCycle, closes: seq<real>, t: nat, u: nat)
    requires t <= |closes| && LadderIs(c, closes, t)
    ensures u in SignalsOf(Ladder(c)) <==> First(c) <= u < EndOf(c, t) && u < t && Raises(closes, First(c), u, c.oldAth)
  {
    hide Raises, First, Ladder, EndOf;
    var ladder := Ladder(c);
    if u in SignalsOf(ladder) {
      var j :| 0 <= j < |ladder| && SignalsOf(ladder)[j] == u;
      assert RungEvent(ladder[j], c, closes, t);
    }
    if First(c) <= u < EndOf(c, t) && u < t && Raises(closes, First(c), u, c.oldAth) {
      var j :| 0 <= j < |ladder| && ladder[j].signal == u;
      assert SignalsOf(ladder)[j] == u;
    }
  }

  // So they are the same cycle.
  lemma SameCycle(a: SourceCycle, b: SourceCycle, id: nat, rearm: nat, closes: seq<real>)
    requires PositiveCloses(closes) && Dated(a, id, closes) && Dated(b, id, closes)
    requires CycleIs(a, rearm, closes, |closes|) && CycleIs(b, rearm, closes, |closes|)
    ensures a == b
  {
    hide Raises, Begins, Hands, HandoffIs, RecoveryIs, PriceRung, LadderIs, Dated, First, Ladder, EndOf, HandedOff;
    var n := |closes|;
    SameDates(a, b, rearm, closes, n);
    forall u ensures u in SignalsOf(Ladder(a)) <==> u in SignalsOf(Ladder(b)) {
      LadderSignalled(a, closes, n, u);
      LadderSignalled(b, closes, n, u);
    }
    LadderRising(a, id, closes);
    LadderRising(b, id, closes);
    SameRising(SignalsOf(Ladder(a)), SignalsOf(Ladder(b)));
    SameAthDate(a, b, id, closes);
    SameEvents(a, b, id, closes);
  }

  lemma LadderRising(c: SourceCycle, id: nat, closes: seq<real>)
    requires PositiveCloses(closes) && Dated(c, id, closes)
    ensures Rising(SignalsOf(Ladder(c)))
  {
    hide EventIs;
  }

  lemma SameAthDate(a: SourceCycle, b: SourceCycle, id: nat, closes: seq<real>)
    requires PositiveCloses(closes) && Dated(a, id, closes) && Dated(b, id, closes) && First(a) == First(b)
    ensures a.oldAthDate == b.oldAthDate && a.cycleId == b.cycleId
  {
    hide EventIs, First;
    FirstHighest(closes, First(a), a.oldAthDate, b.oldAthDate);
  }

  lemma FirstHighest(closes: seq<real>, n: nat, a: nat, b: nat)
    requires n < |closes| && a <= n && b <= n
    requires (forall u :: 0 <= u <= n ==> closes[u] <= closes[a]) && (forall u :: 0 <= u <= n ==> closes[u] <= closes[b])
    requires (forall u :: 0 <= u < a ==> closes[u] < closes[a]) && (forall u :: 0 <= u < b ==> closes[u] < closes[b])
    ensures a == b
  {
    assert closes[a] <= closes[b] && closes[b] <= closes[a];
    NotSooner(closes, a, b);
    NotSooner(closes, b, a);
  }

  lemma NotSooner(closes: seq<real>, a: nat, b: nat)
    requires a < |closes| && b < |closes| && closes[b] <= closes[a] && forall u :: 0 <= u < b ==> closes[u] < closes[b]
    ensures a >= b
  {
  }

  lemma SameEvents(a: SourceCycle, b: SourceCycle, id: nat, closes: seq<real>)
    requires PositiveCloses(closes) && Dated(a, id, closes) && Dated(b, id, closes)
    requires LadderIs(a, closes, |closes|) && LadderIs(b, closes, |closes|) && HandoffIs(a, closes, |closes|) && HandoffIs(b, closes, |closes|)
    requires a.cycleId == b.cycleId && a.oldAthDate == b.oldAthDate && a.oldAth == b.oldAth && First(a) == First(b)
    requires (HandedOff(a) <==> HandedOff(b)) && EndOf(a, |closes|) == EndOf(b, |closes|)
    requires SignalsOf(Ladder(a)) == SignalsOf(Ladder(b))
    ensures a.events == b.events
  {
    hide Raises, PriceRung, First, HandsFirst, NoHandoff, LadderIs, HandoffIs, Dated;
    assert |SignalsOf(Ladder(a))| == |Ladder(a)| && |SignalsOf(Ladder(b))| == |Ladder(b)|;
    assert |a.events| == |b.events|;
    forall j | 0 <= j < |a.events| ensures a.events[j] == b.events[j] {
      if j < |Ladder(a)| {
        assert Ladder(a)[j] == a.events[j] && Ladder(b)[j] == b.events[j];
        assert SignalsOf(Ladder(a))[j] == a.events[j].signal && SignalsOf(Ladder(b))[j] == b.events[j].signal;
        SameRung(a, b, id, closes, j);
      } else {
        assert a.events[j] == Last(a.events) && b.events[j] == Last(b.events);
        SameLast(a, b, id, closes);
      }
    }
  }

  lemma SameRung(a: SourceCycle, b: SourceCycle, id: nat, closes: seq<real>, j: nat)
    requires PositiveCloses(closes) && Dated(a, id, closes) && Dated(b, id, closes)
    requires LadderIs(a, closes, |closes|) && LadderIs(b, closes, |closes|)
    requires a.cycleId == b.cycleId && a.oldAthDate == b.oldAthDate && a.oldAth == b.oldAth
    requires j < |Ladder(a)| && j < |Ladder(b)| && Ladder(a)[j].signal == Ladder(b)[j].signal
    ensures Ladder(a)[j] == Ladder(b)[j]
  {
    hide Raises, PriceRung, First, EndOf;
    assert Ladder(a)[j] == a.events[j] && Ladder(b)[j] == b.events[j];
    assert EventIs(a.events[j], a, closes) && EventIs(b.events[j], b, closes);
    assert RungEvent(Ladder(a)[j], a, closes, |closes|) && RungEvent(Ladder(b)[j], b, closes, |closes|);
  }

  lemma SameLast(a: SourceCycle, b: SourceCycle, id: nat, closes: seq<real>)
    requires PositiveCloses(closes) && Dated(a, id, closes) && Dated(b, id, closes)
    requires HandoffIs(a, closes, |closes|) && HandoffIs(b, closes, |closes|) && HandedOff(a) && HandedOff(b)
    requires a.cycleId == b.cycleId && a.oldAthDate == b.oldAthDate && a.oldAth == b.oldAth
    requires EndOf(a, |closes|) == EndOf(b, |closes|)
    ensures Last(a.events) == Last(b.events)
  {
    hide HandsFirst, First;
    assert EventIs(a.events[|a.events| - 1], a, closes) && EventIs(b.events[|b.events| - 1], b, closes);
  }

  // Prefix by prefix, two accounts of the same closes agree.
  lemma {:induction false} SameSoFar(a: seq<SourceCycle>, b: seq<SourceCycle>, closes: seq<real>, i: nat)
    requires Story(a, closes) && Story(b, closes) && i <= |a| && i <= |b|
    ensures a[..i] == b[..i]
  {
    hide CycleIs, Dated, NoFall, RearmOf;
    if i > 0 {
      SameSoFar(a, b, closes, i - 1);
      SameCycle(a[i - 1], b[i - 1], i, RearmOf(a[..i - 1]), closes);
      assert a[..i] == a[..i - 1] + [a[i - 1]] && b[..i] == b[..i - 1] + [b[i - 1]];
    }
  }

  // A further cycle needs a recovered one before it, and a fall after that.
  lemma NextNeeds(b: seq<SourceCycle>, closes: seq<real>, i: nat)
    requires Story(b, closes) && i < |b|
    ensures i > 0 ==> b[i - 1].recovery.Some?
    ensures !NoFall(closes, RearmOf(b[..i]), |closes|)
  {
    hide Dated, LadderIs, HandoffIs, RecoveryIs;
    assert CycleIs(b[i], RearmOf(b[..i]), closes, |closes|);
    assert Falls(closes, RearmOf(b[..i]), First(b[i]));
  }

  lemma NoneMore(a: seq<SourceCycle>, b: seq<SourceCycle>, closes: seq<real>)
    requires Story(a, closes) && Story(b, closes) && |a| <= |b| && a == b[..|a|]
    ensures a == b
  {
    hide CycleIs, Dated, NoFall;
    if |a| < |b| {
      NextNeeds(b, closes, |a|);
    }
  }

  lemma StoryIsUnique(a: seq<SourceCycle>, b: seq<SourceCycle>, closes: seq<real>)
    requires Story(a, closes) && Story(b, closes)
    ensures a == b
  {
    hide Story;
    var n := if |a| <= |b| then |a| else |b|;
    SameSoFar(a, b, closes, n);
    if |a| <= |b| {
      assert a == b[..|a|];
      NoneMore(a, b, closes);
    } else {
      assert b == a[..|b|];
      NoneMore(b, a, closes);
    }
  }

  lemma CompiledDated(closes: seq<real>, i: nat)
    requires SourceCycles(closes).Ok? && i < |SourceCycles(closes).value|
    ensures PositiveCloses(closes) && Dated(SourceCycles(closes).value[i], i + 1, closes)
  {
    hide SourceCycles, Separated, RecoveryShape, Fold;
    SourceCyclesFold(closes);
    CompiledNumbers(closes);
    CompilerIsTotal(closes);
    var c := SourceCycles(closes).value[i];
    assert Measured(c, closes, |closes|) && CycleShape(c, closes, |closes|, |closes|);
    DatedOne(c, i + 1, closes);
  }

  lemma DatedOne(c: SourceCycle, id: nat, closes: seq<real>)
    requires PositiveCloses(closes) && Measured(c, closes, |closes|) && CycleShape(c, closes, |closes|, |closes|) && c.cycleId == id
    requires First(c) < |closes|
    ensures Dated(c, id, closes)
  {
    forall j | 0 <= j < |c.events| ensures EventIs(c.events[j], c, closes) {
      assert EventFits(c.events[j], c, closes, |closes|, |closes|) && DrawdownIs(c.events[j], c.oldAth, closes, |closes|);
    }
  }

  // The compiler, when it returns, returns the one account of the closes.
  lemma SourceCyclesAre(closes: seq<real>, cycles: seq<SourceCycle>)
    requires SourceCycles(closes).Ok?
    ensures SourceCycles(closes).value == cycles <==> Story(cycles, closes)
  {
    hide SourceCycles, Told, Dated;
    var compiled := SourceCycles(closes).value;
    CompiledTold(closes);
    SourceCyclesFold(closes);
    forall i | 0 <= i < |compiled| ensures Dated(compiled[i], i + 1, closes) {
      CompiledDated(closes, i);
    }
    assert Story(compiled, closes);
    if Story(cycles, closes) {
      StoryIsUnique(compiled, cycles, closes);
    }
  }
}
