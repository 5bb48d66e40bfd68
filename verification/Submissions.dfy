// submit_current_phase of src/sp1execution/execution/broker_executor_v04.py, told by the broker's
// answers: which orders go out, in which order, and what becomes of their legs.
module Submissions {
  import opened Common
  import opened Capital
  import opened ExecutionTables
  import opened Executor
  import opened ExecutionSteps
  import opened ExecutionInvariant
  import opened ExecutionKeeps
  import opened PostOrder
  import opened CycleSteps
  import opened CycleRuns
  import opened DecisionTable
  import opened Refusals

  // The first k answers carry an order id, and the next one does not.
  ghost predicate Answers(replies: seq<PostReply>, n: nat, k: nat) {
    && k <= n && k <= |replies| && (forall j :: 0 <= j < k ==> replies[j].Accepted?)
    && (k < n ==> k == |replies| || !replies[k].Accepted?)
  }

  ghost function PostsFor(id: nat, side: Side, queue: seq<nat>): seq<Post> {
    seq(|queue|, j requires 0 <= j < |queue| => Post(id, queue[j], side))
  }

  // The first k legs of the queue are accepted under the ids answered; the next one, if any, is left
  // with its intent; the others are as they were.
  ghost predicate LegsSent(legs: seq<Leg>, next: seq<Leg>, queue: seq<nat>, replies: seq<PostReply>, k: nat)
    requires k <= |queue| && k <= |replies| && forall j :: 0 <= j < k ==> replies[j].Accepted?
  {
    && |next| == |legs|
    && (forall j :: 0 <= j < |queue| ==> queue[j] < |legs|)
    && (forall j :: 0 <= j < k ==>
          next[queue[j]] == Leg(legs[queue[j]].spec, BrokerAccepted, Some(replies[j].orderId)))
    && (k < |queue| ==> next[queue[k]] == Leg(legs[queue[k]].spec, IntentRecorded, None))
    && (forall i: nat :: i < |legs| && i !in queue[..if k < |queue| then k + 1 else k] ==> next[i] == legs[i])
  }

  // What a submission of a queue of legs has made of the world: a POST for each leg up to the first
  // that is not accepted, which stops the workflow.
  ghost predicate Sent(w: World, id: nat, side: Side, queue: seq<nat>, replies: seq<PostReply>, k: nat, next: World)
    requires id in w.db.workflows
  {
    var wf := w.db.workflows[id];
    && Answers(replies, |queue|, k)
    && next.posts == w.posts + PostsFor(id, side, queue[..if k < |queue| then k + 1 else k])
    && id in next.db.workflows && LegsSent(wf.legs, next.db.workflows[id].legs, queue, replies, k)
    && next.db.workflows == w.db.workflows[id := Workflow(wf.plan, if k < |queue| then ReconciliationRequired else wf.status,
                                                          wf.phase, next.db.workflows[id].legs)]
    && next.db.ledger == w.db.ledger
    && next.db.machine.account.cash == w.db.machine.account.cash && next.db.machine.account.fees == w.db.machine.account.fees
    && (if k < |queue| then next.db.machine.exec.ReconRequired?
        else next.db.machine == w.db.machine && next.db.journal == w.db.journal)
  }

  ghost predicate Ends(outcome: Result<seq<nat>, ExecError>, queue: seq<nat>, replies: seq<PostReply>, k: nat) {
    if k >= |queue| then outcome.Ok?
    else outcome == Err(if k >= |replies| || replies[k].Raised? then BrokerRaised else SubmissionAmbiguous)
  }

  lemma NoneSent(w: World, id: nat, side: Side, replies: seq<PostReply>)
    requires id in w.db.workflows
    ensures Sent(w, id, side, [], replies, 0, w)
  {
    var wf := w.db.workflows[id];
    assert PostsFor(id, side, []) == [];
    assert w.db.workflows == w.db.workflows[id := wf];
  }

  // The head of the queue is not accepted.
  lemma HeadStops(w: World, w2: World, next: World, id: nat, side: Side, queue: seq<nat>, replies: seq<PostReply>)
    requires id in w.db.workflows && queue != [] && (forall j :: 0 <= j < |queue| ==> queue[j] < |w.db.workflows[id].legs|)
    requires replies == [] || !replies[0].Accepted?
    requires var wf := w.db.workflows[id];
             && wf.legs[queue[0]].orderId.None?
             && w2.db == Put(w.db, id, wf.(legs := wf.legs[queue[0] := wf.legs[queue[0]].(status := IntentRecorded)]))
             && w2.posts == w.posts + [Post(id, queue[0], side)]
    requires next.posts == w2.posts
    requires next.db.workflows == w2.db.workflows[id := w2.db.workflows[id].(status := ReconciliationRequired)]
    requires next.db.ledger == w2.db.ledger && next.db.machine.exec.ReconRequired?
    requires next.db.machine.account.cash == w2.db.machine.account.cash && next.db.machine.account.fees == w2.db.machine.account.fees
    ensures Sent(w, id, side, queue, replies, 0, next)
  {
    var wf := w.db.workflows[id];
    assert queue[..1] == [queue[0]] && PostsFor(id, side, queue[..1]) == [Post(id, queue[0], side)];
    assert next.db.workflows[id].legs == w2.db.workflows[id].legs;
  }

  // The head is accepted, and the rest goes on from there.
  lemma HeadGoes(w: World, w3: World, next: World, id: nat, side: Side, queue: seq<nat>, replies: seq<PostReply>, k: nat)
    requires id in w.db.workflows && queue != [] && (forall j :: 0 <= j < |queue| ==> queue[j] < |w.db.workflows[id].legs|)
    requires forall j, m :: 0 <= j < m < |queue| ==> queue[j] < queue[m]
    requires replies != [] && replies[0].Accepted?
    requires var wf := w.db.workflows[id];
             && w3.db == Put(w.db, id, wf.(legs := wf.legs[queue[0] := Leg(wf.legs[queue[0]].spec, BrokerAccepted, Some(replies[0].orderId))]))
             && w3.posts == w.posts + [Post(id, queue[0], side)]
    requires Sent(w3, id, side, queue[1..], replies[1..], k, next)
    ensures Sent(w, id, side, queue, replies, k + 1, next)
  {
    hide LegsSent;
    var rest := queue[1..];
    var n := if k < |rest| then k + 1 else k;
    QueuePosts(id, side, queue, n);
    HeadLegs(w.db.workflows[id].legs, w3.db.workflows[id].legs, next.db.workflows[id].legs, queue, replies, k);
    assert w.posts + PostsFor(id, side, queue[..n + 1]) == w3.posts + PostsFor(id, side, rest[..n]);
  }

  lemma QueuePosts(id: nat, side: Side, queue: seq<nat>, n: nat)
    requires queue != [] && n < |queue|
    ensures PostsFor(id, side, queue[..n + 1]) == [Post(id, queue[0], side)] + PostsFor(id, side, queue[1..][..n])
  {
    assert queue[..n + 1] == [queue[0]] + queue[1..][..n];
  }

  lemma HeadLegs(legs: seq<Leg>, legs3: seq<Leg>, after: seq<Leg>, queue: seq<nat>, replies: seq<PostReply>, k: nat)
    requires queue != [] && (forall j :: 0 <= j < |queue| ==> queue[j] < |legs|)
    requires forall j, m :: 0 <= j < m < |queue| ==> queue[j] < queue[m]
    requires replies != [] && replies[0].Accepted?
    requires legs3 == legs[queue[0] := Leg(legs[queue[0]].spec, BrokerAccepted, Some(replies[0].orderId))]
    requires Answers(replies[1..], |queue[1..]|, k) && LegsSent(legs3, after, queue[1..], replies[1..], k)
    ensures Answers(replies, |queue|, k + 1) && LegsSent(legs, after, queue, replies, k + 1)
  {
    var rest, answers := queue[1..], replies[1..];
    var n := if k < |rest| then k + 1 else k;
    assert queue[..n + 1] == [queue[0]] + rest[..n];
    assert forall m :: 0 <= m < |rest| ==> rest[m] == queue[m + 1] && queue[0] < rest[m];
    forall j | 0 <= j < k + 1 ensures replies[j].Accepted? && after[queue[j]] == Leg(legs[queue[j]].spec, BrokerAccepted, Some(replies[j].orderId)) {
      if j > 0 {
        assert rest[j - 1] == queue[j] && answers[j - 1] == replies[j];
      } else {
        assert queue[0] !in rest[..n];
      }
    }
    if k + 1 < |queue| {
      assert rest[k] == queue[k + 1] && legs3[rest[k]] == legs[rest[k]];
      assert k < |answers| ==> answers[k] == replies[k + 1];
    }
  }

  // The head is POSTed and accepted.
  lemma HeadAccepted(w: World, id: nat, side: Side, queue: seq<nat>, replies: seq<PostReply>) returns (w3: World)
    requires Good(w) && ActiveIn(w.db, id) && queue != [] && replies != [] && replies[0].Accepted?
    requires Outgoing(w.db.workflows[id], side, queue) && AloneInFlight(w.db, w.db.workflows[id], side, queue)
    ensures var i, rest := queue[0], SubmitLegs(w3, id, side, queue[1..], replies[1..]);
            && i < |w.db.workflows[id].legs|
            && w3 == World(PutLeg(w.db, id, i, Leg(w.db.workflows[id].legs[i].spec, BrokerAccepted, Some(replies[0].orderId))),
                           w.posts + [Post(id, i, side)])
            && SubmitLegs(w, id, side, queue, replies).outcome == rest.outcome
            && At(w, SubmitLegs(w, id, side, queue, replies).worlds) == At(w3, rest.worlds)
    ensures Good(w3) && ActiveIn(w3.db, id)
    ensures Outgoing(w3.db.workflows[id], side, queue[1..]) && AloneInFlight(w3.db, w3.db.workflows[id], side, queue[1..])
  {
    hide Inv, PostsOk, Takes, Steps, Ambiguous, RequireReconciliation, NextToSubmit, AloneInFlight;
    var i := queue[0];
    var w1, w2 := FirstPost(w, id, side, queue);
    IntentIs(w, w1.db, id, i);
    AcceptanceIs(w2.db, id, i, replies[0].orderId);
    w3 := w2.(db := RecordAcceptance(w2.db, id, i, replies[0].orderId).value);
    LegTwice(w.db, id, i, w.db.workflows[id].legs[i].(status := IntentRecorded), replies[0].orderId);
    AcceptTakes(w2, w3, id, i, replies[0].orderId);
    ThenStep(w, [w1, w2], w3, Accepting(id, i, replies[0].orderId));
    hide RecordIntent, RecordAcceptance;
    assert [w1, w2] + [w3] == [w1, w2, w3];
    StepsKeepGood(w, [w1, w2, w3]);
    RestGoes(w, w3, id, side, queue);
    EndThen(w, [w1, w2, w3], SubmitLegs(w3, id, side, queue[1..], replies[1..]).worlds);
  }

  // The head is POSTed, and no order id comes back.
  lemma HeadUnanswered(w: World, id: nat, side: Side, queue: seq<nat>, replies: seq<PostReply>)
    requires Good(w) && ActiveIn(w.db, id) && queue != [] && (replies == [] || !replies[0].Accepted?)
    requires Outgoing(w.db.workflows[id], side, queue) && AloneInFlight(w.db, w.db.workflows[id], side, queue)
    ensures var t := SubmitLegs(w, id, side, queue, replies);
            Sent(w, id, side, queue, replies, 0, At(w, t.worlds)) && Ends(t.outcome, queue, replies, 0)
  {
    hide Inv, PostsOk, Takes, Steps, Ambiguous, RequireReconciliation, NextToSubmit, Sent, AloneInFlight;
    var i := queue[0];
    var w1, w2 := FirstPost(w, id, side, queue);
    IntentIs(w, w1.db, id, i);
    NoId(w2.db.workflows[id].legs[i]);
    StopsAt(w2.db, id, i);
    var w3 := w2.(db := RequireReconciliation(w2.db, id).value.0);
    HeadStops(w, w2, w3, id, side, queue, replies);
  }

  // A queue goes out leg by leg until an answer carries no order id.
  lemma {:induction false} QueueGoes(w: World, id: nat, side: Side, queue: seq<nat>, replies: seq<PostReply>) returns (k: nat)
    requires Good(w) && ActiveIn(w.db, id)
    requires Outgoing(w.db.workflows[id], side, queue) && AloneInFlight(w.db, w.db.workflows[id], side, queue)
    ensures var t := SubmitLegs(w, id, side, queue, replies);
            Sent(w, id, side, queue, replies, k, At(w, t.worlds)) && Ends(t.outcome, queue, replies, k)
    decreases |queue|
  {
    hide Good, Sent, AloneInFlight, RequireReconciliation, RecordIntent, RecordAcceptance;
    k := 0;
    if queue == [] {
      NoneSent(w, id, side, replies);
    } else if replies != [] && replies[0].Accepted? {
      var w3 := HeadAccepted(w, id, side, queue, replies);
      var m := QueueGoes(w3, id, side, queue[1..], replies[1..]);
      k := m + 1;
      HeadGoes(w, w3, At(w3, SubmitLegs(w3, id, side, queue[1..], replies[1..]).worlds), id, side, queue, replies, m);
    } else {
      HeadUnanswered(w, id, side, queue, replies);
    }
  }

  lemma IntentIs(w: World, next: Db, id: nat, i: nat)
    requires ActiveIn(w.db, id) && i < |w.db.workflows[id].legs| && w.db.workflows[id].legs[i].status.Planned?
    requires RecordIntent(w.db, id, i) == Ok(next)
    ensures var wf := w.db.workflows[id]; next == Put(w.db, id, wf.(legs := wf.legs[i := wf.legs[i].(status := IntentRecorded)]))
  {
  }

  lemma NoId(leg: Leg)
    requires Ambiguous(leg)
    ensures leg.orderId.None?
  {
  }

  lemma LegTwice(db: Db, id: nat, i: nat, leg: Leg, orderId: nat)
    requires id in db.workflows && i < |db.workflows[id].legs| && leg.spec == db.workflows[id].legs[i].spec
    ensures var accepted := Leg(leg.spec, BrokerAccepted, Some(orderId));
            PutLeg(PutLeg(db, id, i, leg), id, i, accepted) == PutLeg(db, id, i, accepted)
  {
    var legs, accepted := db.workflows[id].legs, Leg(leg.spec, BrokerAccepted, Some(orderId));
    assert legs[i := leg][i := accepted] == legs[i := accepted];
    var once, twice := PutLeg(db, id, i, accepted), PutLeg(PutLeg(db, id, i, leg), id, i, accepted);
    assert twice.workflows == once.workflows;
  }

  lemma AcceptanceIs(db: Db, id: nat, i: nat, orderId: nat)
    requires ActiveIn(db, id) && i < |db.workflows[id].legs| && db.workflows[id].legs[i].status.IntentRecorded?
    ensures var w := db.workflows[id];
            RecordAcceptance(db, id, i, orderId) ==
            Ok(Put(db, id, w.(legs := w.legs[i := Leg(w.legs[i].spec, BrokerAccepted, Some(orderId))])))
  {
  }

  // An unanswered intent is made durable: the workflow and the machine wait for reconciliation.
  lemma StopsAt(db: Db, id: nat, i: nat)
    requires Inv(db) && ActiveIn(db, id) && i < |db.workflows[id].legs| && Ambiguous(db.workflows[id].legs[i])
    ensures var r := RequireReconciliation(db, id);
            && r.Ok? && r.value.0.workflows == db.workflows[id := db.workflows[id].(status := ReconciliationRequired)]
            && r.value.0.ledger == db.ledger && r.value.0.machine.exec.ReconRequired?
            && r.value.0.machine.account.cash == db.machine.account.cash && r.value.0.machine.account.fees == db.machine.account.fees
  {
    hide AwaitsControl, RowOk, WorkflowsOk, KeysOk, Alone, MoveAndCommit, LegsOk;
    PlanIs(db, id);
    assert AnyAmbiguous(db.workflows[id].legs);
    Advances(db, id, db.workflows[id].(status := ReconciliationRequired), AmbiguousIntent, ReconRequired);
  }

  /* ---- A whole submission ---- */

  // The legs that go out: every planned sell in order, or the first planned buy.
  ghost predicate Queue(legs: seq<Leg>, side: Side, queue: seq<nat>) {
    match side
    case Sell =>
      && (forall i: nat :: i in queue <==> i < |legs| && legs[i].spec.side.Sell? && legs[i].status.Planned?)
      && (forall j, m :: 0 <= j < m < |queue| ==> queue[j] < queue[m])
    case Buy => |queue| == 1 && queue[0] < |legs| && FirstPlanned(legs, queue[0])
  }

  // What recovery has submitted goes out exactly: with the pending orders known, and the first
  // planned buy within the cash, every leg of the queue up to the first answer without an order id.
  lemma SubmitMakes(w: World, id: nat, side: Side, replies: seq<PostReply>) returns (queue: seq<nat>, k: nat)
    requires Good(w) && SafeToSubmit(w.db, id, side) && SomeLeg(w.db.workflows[id].legs, side, Planned)
    requires side.Buy? ==> !NextBuyTooDear(w.db, id)
    ensures var t := SubmitCurrent(w, id, true, replies);
            && Queue(w.db.workflows[id].legs, side, queue) && queue != []
            && Sent(w, id, side, queue, replies, k, At(w, t.worlds)) && Ends(t.outcome, queue, replies, k)
    ensures SubmitCurrent(w, id, false, replies) == Trace([], Err(BrokerRaised))
  {
    hide Inv, PostsOk, LegsOf, AnyAmbiguous, PlannedIndexes, BuyCandidates, SubmitLegs, Sent, Outgoing, AloneInFlight, SomeLeg, NextBuyTooDear;
    var legs := w.db.workflows[id].legs;
    SomeOfSide(legs, side, Planned);
    NoneUnanswered(legs, side);
    match side {
      case Sell =>
        queue := PlannedIndexes(legs, Sell);
        SellGoes(w.db, id);
        SellAlone(w.db, w.db.workflows[id], queue);
        SellQueue(legs);
      case Buy =>
        BuyQueue(w.db, id);
        queue := BuyCandidates(w.db, legs).value;
        BuyGoes(w.db, id);
    }
    k := QueueGoes(w, id, side, queue, replies);
  }

  lemma NoneUnanswered(legs: seq<Leg>, side: Side)
    requires forall i :: 0 <= i < |legs| ==> !Ambiguous(legs[i])
    ensures !AnyAmbiguous(LegsOf(legs, side))
  {
    hide LegsOf;
    SideFacts(legs, side);
  }

  lemma SellQueue(legs: seq<Leg>)
    requires SomeLeg(legs, Sell, Planned)
    ensures Queue(legs, Sell, PlannedIndexes(legs, Sell)) && PlannedIndexes(legs, Sell) != []
  {
    hide PlannedIndexes;
    PlannedIndexesAre(legs, Sell);
    var i :| 0 <= i < |legs| && legs[i].spec.side.Sell? && legs[i].status == Planned;
    assert i in PlannedIndexes(legs, Sell);
  }

  lemma BuyQueue(db: Db, id: nat)
    requires Inv(db) && SafeToSubmit(db, id, Buy) && SomeLeg(db.workflows[id].legs, Buy, Planned) && !NextBuyTooDear(db, id)
    ensures var r := BuyCandidates(db, db.workflows[id].legs); r.Ok? && Queue(db.workflows[id].legs, Buy, r.value)
  {
    hide Inv, LegsOf, PlannedIndexes, AnyAmbiguous, AnyInFlight, SomeStatus, FirstPlanned, SomeLeg;
    var legs := db.workflows[id].legs;
    PlannedBuys(db, id);
    FirstOfPlanned(legs);
    SomeOfSide(legs, Buy, Planned);
    AllSettled(legs);
    assert legs[PlannedIndexes(legs, Buy)[0]].status.Planned? by {
      FirstIsPlanned(legs, PlannedIndexes(legs, Buy)[0]);
    }
  }

  lemma FirstIsPlanned(legs: seq<Leg>, i: nat)
    requires i < |legs| && FirstPlanned(legs, i)
    ensures legs[i].status.Planned?
  {
  }
}
