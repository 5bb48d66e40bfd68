// The compiled cycles as a time line: when each cycle starts, enters, exits, and when
// the dispatcher sees its old ATH again.  From these, the closed form of the durable
// state, of the event table and of the trades after any part of any session.
module Timeline {
  import opened Common
  import opened RecoveryTables
  import opened Dispatcher
  import opened FinalSchedule
  import Robust
  import SC = SourceCompiler

  type Cycle = SC.SourceCycle

  // The first session from u on whose close observe_completed_close takes as a recovery.
  function FirstBack(closes: seq<real>, level: real, u: nat): (r: nat)
    requires u <= |closes|
    ensures u <= r <= |closes|
    ensures r < |closes| ==> closes[r] + TOL >= level
    ensures forall k :: u <= k < r ==> closes[k] + TOL < level
    decreases |closes| - u
  {
    if u == |closes| || closes[u] + TOL >= level then u else FirstBack(closes, level, u + 1)
  }

  function Recovery(c: Cycle, closes: seq<real>): (r: nat)
    ensures r <= |closes|
    ensures SC.First(c) <= |closes| ==> SC.First(c) <= r
    ensures SC.First(c) <= r < |closes| ==> closes[r] + TOL >= c.oldAth
    ensures forall k :: SC.First(c) <= k < r ==> closes[k] + TOL < c.oldAth
  {
    if SC.First(c) <= |closes| then FirstBack(closes, c.oldAth, SC.First(c)) else |closes|
  }

  function Recoveries(cycles: seq<Cycle>, closes: seq<real>): seq<nat> {
    seq(|cycles|, i requires 0 <= i < |cycles| => Recovery(cycles[i], closes))
  }

  // No ladder signal of a cycle comes at or after a close the dispatcher takes for its recovery.
  ghost predicate SignalsPrecedeRecovery(cycles: seq<Cycle>, closes: seq<real>) {
    forall i :: 0 <= i < |cycles| && |SC.Ladder(cycles[i])| > 0 ==>
      Last(SC.Ladder(cycles[i])).signal < Recovery(cycles[i], closes)
  }

  // Which holds on every history whose prices are not themselves of the size of the tolerance.
  lemma SignalsPrecedeRecoveryAtScale(cycles: seq<Cycle>, closes: seq<real>)
    requires SC.PositiveCloses(closes) && SC.CompiledShape(cycles, closes, |closes|, |closes|)
    requires forall u :: 0 <= u < |closes| ==> closes[u] >= 0.00000001
    ensures SignalsPrecedeRecovery(cycles, closes)
  {
    forall i | 0 <= i < |cycles| && |SC.Ladder(cycles[i])| > 0
      ensures Last(SC.Ladder(cycles[i])).signal < Recovery(cycles[i], closes)
    {
      var c := cycles[i];
      ShapeAt(cycles, closes, i);
      LadderSignals(c, closes);
      assert SC.Ladder(c)[|SC.Ladder(c)| - 1].signal < |closes|;
      assert closes[SC.First(c)] <= 0.865 * c.oldAth;
      assert forall u :: SC.First(c) <= u <= Last(SC.Ladder(c)).signal ==> closes[u] + TOL < c.oldAth;
    }
  }

  ghost predicate LadderFacts(e: SourceEvent, c: Cycle, closes: seq<real>) {
    && e.cycleId == c.cycleId && e.oldAth == c.oldAth && e.kind.EntryOrScale?
    && e.execution == e.signal + 1 < |closes|
    && Robust.FrozenTarget(e.target) && e.target > 0
  }

  ghost predicate CycleFacts(c: Cycle, closes: seq<real>, id: nat) {
    var ladder := SC.Ladder(c);
    && c.cycleId == id && c.oldAth > 0.0
    && |ladder| > 0 && ladder[0].signal == SC.First(c) < |closes|
    && (forall j :: 0 <= j < |ladder| ==> LadderFacts(ladder[j], c, closes))
    && (forall j, k :: 0 <= j < k < |ladder| ==> ladder[j].signal < ladder[k].signal && ladder[j].target < ladder[k].target)
    && Last(ladder).signal < Recovery(c, closes)
  }

  ghost predicate OnTimeline(cycles: seq<Cycle>, closes: seq<real>) {
    && (forall i :: 0 <= i < |cycles| ==> CycleFacts(cycles[i], closes, i + 1))
    && (forall i, j :: 0 <= i < j < |cycles| ==> Recovery(cycles[i], closes) < SC.First(cycles[j]))
  }

  lemma CompiledOnTimeline(cycles: seq<Cycle>, closes: seq<real>)
    requires SC.PositiveCloses(closes) && SC.CompiledShape(cycles, closes, |closes|, |closes|)
    requires SignalsPrecedeRecovery(cycles, closes)
    ensures OnTimeline(cycles, closes)
  {
    hide SC.CycleShape, SC.RecoveryShape;
    forall i | 0 <= i < |cycles| ensures CycleFacts(cycles[i], closes, i + 1) {
      ShapeAt(cycles, closes, i);
      LadderSignals(cycles[i], closes);
      OneCycleFacts(cycles[i], closes);
    }
    forall i, j | 0 <= i < j < |cycles| ensures Recovery(cycles[i], closes) < SC.First(cycles[j]) {
      ShapeAt(cycles, closes, i);
      assert cycles[i].recovery.Some? && cycles[i].recovery.value < SC.First(cycles[j]);
      RecoveryBounds(cycles[i], closes);
    }
  }

  lemma OneCycleFacts(c: Cycle, closes: seq<real>)
    requires SC.PositiveCloses(closes) && SC.CycleShape(c, closes, |closes|, |closes|)
    requires |SC.Ladder(c)| > 0 && Last(SC.Ladder(c)).signal < Recovery(c, closes)
    ensures CycleFacts(c, closes, c.cycleId)
  {
    LadderSignals(c, closes);
    var ladder := SC.Ladder(c);
    forall j | 0 <= j < |ladder| ensures LadderFacts(ladder[j], c, closes) {
      assert SC.EventFits(c.events[j], c, closes, |closes|, |closes|);
    }
  }

  lemma RecoveryBounds(c: Cycle, closes: seq<real>)
    requires SC.PositiveCloses(closes) && SC.CycleShape(c, closes, |closes|, |closes|)
    requires SC.RecoveryShape(c, closes, |closes|) && c.recovery.Some?
    ensures Recovery(c, closes) <= c.recovery.value
  {
    assert SC.First(c) <= Last(c.events).signal by {
      if |c.events| > 1 {
        assert c.events[0].signal < c.events[|c.events| - 1].signal;
      }
    }
    assert closes[c.recovery.value] + TOL >= c.oldAth;
  }

  /* ---- Ladder events of all cycles, in order ---- */

  function LadderEvents(cycles: seq<Cycle>): seq<SourceEvent> {
    if cycles == [] then [] else LadderEvents(DropLast(cycles)) + SC.Ladder(Last(cycles))
  }

  ghost predicate RisingSignals(events: seq<SourceEvent>) {
    forall i, j :: 0 <= i < j < |events| ==> events[i].signal < events[j].signal
  }

  lemma {:induction false} LadderEventAt(cycles: seq<Cycle>, closes: seq<real>, k: nat) returns (i: nat, j: nat)
    requires OnTimeline(cycles, closes) && k < |LadderEvents(cycles)|
    ensures i < |cycles| && j < |SC.Ladder(cycles[i])|
    ensures LadderEvents(cycles)[k] == SC.Ladder(cycles[i])[j]
    ensures LadderEvents(cycles)[k].cycleId == i + 1
  {
    hide CycleFacts, LadderFacts, Recovery;
    var front := DropLast(cycles);
    OnTimelineFront(cycles, closes);
    if k < |LadderEvents(front)| {
      i, j := LadderEventAt(front, closes, k);
      assert front[i] == cycles[i];
      assert LadderEvents(cycles)[k] == LadderEvents(front)[k];
    } else {
      i, j := |cycles| - 1, k - |LadderEvents(front)|;
      LadderFactsAt(cycles[i], closes, j);
      assert LadderEvents(cycles)[k] == SC.Ladder(cycles[i])[j];
    }
  }

  lemma OnTimelineFront(cycles: seq<Cycle>, closes: seq<real>)
    requires OnTimeline(cycles, closes) && cycles != []
    ensures OnTimeline(DropLast(cycles), closes)
    ensures CycleFacts(Last(cycles), closes, |cycles|) && Last(cycles).cycleId == |cycles|
    ensures forall i :: 0 <= i < |cycles| - 1 ==> Recovery(cycles[i], closes) < SC.First(Last(cycles))
  {
    hide CycleFacts, Recovery;
    FactsAt(cycles, closes, |cycles| - 1);
    var front := DropLast(cycles);
    forall i | 0 <= i < |front| ensures CycleFacts(front[i], closes, i + 1) {
      assert front[i] == cycles[i];
    }
    forall i | 0 <= i < |cycles| - 1 ensures Recovery(cycles[i], closes) < SC.First(Last(cycles)) {
      assert Last(cycles) == cycles[|cycles| - 1];
    }
  }

  lemma LadderFactsAt(c: Cycle, closes: seq<real>, j: nat)
    requires CycleFacts(c, closes, c.cycleId) && j < |SC.Ladder(c)|
    ensures LadderFacts(SC.Ladder(c)[j], c, closes) && SC.Ladder(c)[j].cycleId == c.cycleId
  {
  }

  lemma {:induction false} LadderEventOf(cycles: seq<Cycle>, i: nat, j: nat) returns (k: nat)
    requires i < |cycles| && j < |SC.Ladder(cycles[i])|
    ensures k < |LadderEvents(cycles)| && LadderEvents(cycles)[k] == SC.Ladder(cycles[i])[j]
  {
    if i == |cycles| - 1 {
      k := |LadderEvents(DropLast(cycles))| + j;
    } else {
      k := LadderEventOf(DropLast(cycles), i, j);
    }
  }

  lemma {:induction false} LadderEventsRise(cycles: seq<Cycle>, closes: seq<real>)
    requires OnTimeline(cycles, closes)
    ensures RisingSignals(LadderEvents(cycles))
  {
    hide CycleFacts, LadderFacts, Recovery;
    if cycles != [] {
      var front := DropLast(cycles);
      OnTimelineFront(cycles, closes);
      LadderEventsRise(front, closes);
      var before, last := LadderEvents(front), Last(cycles);
      forall k | 0 <= k < |before| ensures before[k].signal < SC.First(last) {
        var i, j := LadderEventAt(front, closes, k);
        FactsAt(cycles, closes, i);
        LadderBefore(cycles[i], closes, j);
      }
      forall j | 0 <= j < |SC.Ladder(last)| ensures SC.First(last) <= SC.Ladder(last)[j].signal {
        LadderBefore(last, closes, j);
      }
      LadderRises(last, closes);
    }
  }

  lemma FactsAt(cycles: seq<Cycle>, closes: seq<real>, i: nat)
    requires OnTimeline(cycles, closes) && i < |cycles|
    ensures CycleFacts(cycles[i], closes, i + 1) && cycles[i].cycleId == i + 1
  {
  }

  lemma LadderRises(c: Cycle, closes: seq<real>)
    requires CycleFacts(c, closes, c.cycleId)
    ensures RisingSignals(SC.Ladder(c))
  {
  }

  // A ladder signal lies between the first signal and the recovery.
  lemma LadderBefore(c: Cycle, closes: seq<real>, j: nat)
    requires CycleFacts(c, closes, c.cycleId) && j < |SC.Ladder(c)|
    ensures SC.First(c) <= SC.Ladder(c)[j].signal < Recovery(c, closes)
    ensures SC.Ladder(c)[j].signal == SC.First(c) ==> j == 0
  {
    var ladder := SC.Ladder(c);
    if j < |ladder| - 1 {
      assert ladder[j].signal < ladder[|ladder| - 1].signal;
    }
    if j > 0 {
      assert ladder[0].signal < ladder[j].signal;
    }
  }
}
