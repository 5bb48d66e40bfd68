// What steps do to legs and POSTs: no leg returns to PLANNED, nothing changes once a
// workflow has left ACTIVE, each leg is POSTed at most once, and no SELL goes out after a BUY.
module PostOrder {
  import opened Common
  import opened Capital
  import opened ExecutionTables
  import opened Executor
  import opened ExecutionSteps
  import opened ExecutionInvariant
  import opened ExecutionKeeps
  import opened ExecutionEffects

  ghost predicate LegEvolves(leg: Leg, next: Leg) {
    && next.spec == leg.spec
    && (next.status.Planned? ==> leg.status.Planned?)
    && (leg.orderId.Some? ==> next.orderId == leg.orderId)
  }

  ghost predicate WorkflowEvolves(w: Workflow, next: Workflow) {
    && next.plan == w.plan
    && |w.legs| <= |next.legs| && (forall i :: 0 <= i < |w.legs| ==> LegEvolves(w.legs[i], next.legs[i]))
    && (!w.status.Active? ==> next == w)
  }

  ghost predicate Evolves(w: World, next: World) {
    && (forall id :: id in w.db.workflows ==> id in next.db.workflows && WorkflowEvolves(w.db.workflows[id], next.db.workflows[id]))
    && |w.posts| <= |next.posts| && next.posts[..|w.posts|] == w.posts
    && (forall k :: |w.posts| <= k < |next.posts| ==>
          next.posts[k].workflow in w.db.workflows ==> w.db.workflows[next.posts[k].workflow].status.Active?)
  }

  lemma EvolvesTwice(a: World, b: World, c: World)
    requires Evolves(a, b) && Evolves(b, c)
    ensures Evolves(a, c)
  {
    forall id | id in a.db.workflows ensures id in c.db.workflows && WorkflowEvolves(a.db.workflows[id], c.db.workflows[id]) {
      assert WorkflowEvolves(a.db.workflows[id], b.db.workflows[id]);
      assert WorkflowEvolves(b.db.workflows[id], c.db.workflows[id]);
    }
    assert c.posts[..|a.posts|] == b.posts[..|a.posts|];
    forall k | |a.posts| <= k < |c.posts| && c.posts[k].workflow in a.db.workflows
      ensures a.db.workflows[c.posts[k].workflow].status.Active?
    {
      assert WorkflowEvolves(a.db.workflows[c.posts[k].workflow], b.db.workflows[c.posts[k].workflow]);
      if k < |b.posts| {
        assert c.posts[k] == b.posts[k];
      }
    }
  }

  // A transaction that rewrites the record of one ACTIVE workflow.
  lemma OneRecord(w: World, next: World, id: nat)
    requires ActiveIn(w.db, id) && next.posts == w.posts && next.db.workflows.Keys == w.db.workflows.Keys
    requires forall other :: other in w.db.workflows && other != id ==> next.db.workflows[other] == w.db.workflows[other]
    requires WorkflowEvolves(w.db.workflows[id], next.db.workflows[id])
    ensures Evolves(w, next)
  {
  }

  lemma SameRecords(w: World, next: World)
    requires next.posts == w.posts && next.db.workflows == w.db.workflows
    ensures Evolves(w, next)
  {
  }

  lemma StatusesEvolve(w: Workflow, statuses: map<nat, LegStatus>, status: WorkflowStatus, phase: Phase)
    requires w.status.Active? && statuses.Values <= RECONCILED
    ensures WorkflowEvolves(w, Workflow(w.plan, status, phase, WithStatuses(w.legs, statuses)))
  {
    forall i | 0 <= i < |w.legs| ensures LegEvolves(w.legs[i], WithStatuses(w.legs, statuses)[i]) {
      if i in statuses {
        assert statuses[i] in statuses.Values;
      }
    }
  }

  lemma RewriteEvolves(w: World, next: World, k: Kind)
    requires Takes(w, next, k) && Rewriting(w.db, k).Some?
    ensures Evolves(w, next)
  {
    hide Takes, Covers;
    RewriteEffect(w, next, k);
    var r := Rewriting(w.db, k).value;
    if !k.Creating? {
      RecordEvolves(w, next, k);
    }
  }

  lemma RecordEvolves(w: World, next: World, k: Kind)
    requires Takes(w, next, k) && Rewriting(w.db, k).Some? && !k.Creating?
    ensures var r := Rewriting(w.db, k).value;
            r.id in w.db.workflows && WorkflowEvolves(w.db.workflows[r.id], r.record)
  {
    hide MoveAndCommit, WorkflowEvolves, SellVerdict, BuyVerdict;
    RewriteIs(w, next, k);
    var r := Rewriting(w.db, k).value;
    var wf := w.db.workflows[r.id];
    match k
    case MarkingSell(id, statuses) => StatusesEvolve(wf, statuses, r.record.status, r.record.phase);
    case Persisting(id, statuses, status, suffix, to) => StatusesEvolve(wf, statuses, status, BuyPhase);
    case MarkingBuy(id) => StatusesEvolve(wf, AllFilled(wf.legs), r.record.status, r.record.phase);
    case _ => MoreLegs(wf, r.record);
  }

  lemma MoreLegs(w: Workflow, next: Workflow)
    requires w.status.Active? && next.plan == w.plan && |w.legs| <= |next.legs| && next.legs[..|w.legs|] == w.legs
    ensures WorkflowEvolves(w, next)
  {
  }

  // Submission moves a leg forward and gives it its order id.
  lemma LegEvolving(w: World, next: World, k: Kind)
    requires Takes(w, next, k) && (k.Intending? || k.Accepting?)
    ensures LegAfter(w.db, k).Some?
    ensures var id := LegAfter(w.db, k).value.0;
            && ActiveIn(w.db, id) && next.posts == w.posts && next.db.workflows.Keys == w.db.workflows.Keys
            && (forall other :: other in w.db.workflows && other != id ==> next.db.workflows[other] == w.db.workflows[other])
            && WorkflowEvolves(w.db.workflows[id], next.db.workflows[id])
  {
    LegEffect(w, next, k);
    var (id, i, leg) := LegAfter(w.db, k).value;
    assert LegEvolves(w.db.workflows[id].legs[i], leg);
  }

  lemma StepEvolves(w: World, next: World, k: Kind)
    requires Inv(w.db) && Takes(w, next, k)
    ensures Evolves(w, next)
  {
    hide Inv, Takes, Evolves, Rewriting;
    if Rewriting(w.db, k).Some? {
      RewriteEvolves(w, next, k);
    } else if k.Intending? || k.Accepting? {
      LegEvolving(w, next, k);
      OneRecord(w, next, LegAfter(w.db, k).value.0);
    } else {
      OtherEffect(w, next, k);
      if k.Posting? {
        PostingEvolves(w, next, k.id, k.i, k.side);
      } else {
        SameRecords(w, next);
      }
    }
  }

  lemma PostingEvolves(w: World, next: World, id: nat, i: nat, side: Side)
    requires Takes(w, next, Posting(id, i, side))
    ensures Evolves(w, next)
  {
  }

  /* ---- The POST log ---- */

  ghost predicate PostFits(db: Db, p: Post) {
    && p.workflow in db.workflows && p.leg < |db.workflows[p.workflow].legs|
    && db.workflows[p.workflow].legs[p.leg].spec.side == p.side
    && !db.workflows[p.workflow].legs[p.leg].status.Planned?
  }

  // Each leg at most once, and within a workflow no SELL after a BUY.
  ghost predicate InOrder(posts: seq<Post>) {
    forall i, j :: 0 <= i < j < |posts| && posts[i].workflow == posts[j].workflow ==>
      posts[i].leg != posts[j].leg && (posts[i].side.Buy? ==> posts[j].side.Buy?)
  }

  ghost predicate PostsOk(w: World) {
    && (forall k :: 0 <= k < |w.posts| ==> PostFits(w.db, w.posts[k]))
    && InOrder(w.posts)
  }

  lemma StepKeepsPosts(w: World, next: World, k: Kind)
    requires Inv(w.db) && PostsOk(w) && Takes(w, next, k)
    ensures PostsOk(next)
  {
    hide Inv, Takes;
    StepEvolves(w, next, k);
    forall m | 0 <= m < |w.posts| ensures PostFits(next.db, w.posts[m]) {
      assert PostFits(w.db, w.posts[m]);
      assert WorkflowEvolves(w.db.workflows[w.posts[m].workflow], next.db.workflows[w.posts[m].workflow]);
      assert LegEvolves(w.db.workflows[w.posts[m].workflow].legs[w.posts[m].leg],
                        next.db.workflows[w.posts[m].workflow].legs[w.posts[m].leg]);
    }
    if k.Posting? {
      PostingKeeps(w, next, k.id, k.i, k.side);
    } else {
      SamePosts(w, next, k);
    }
  }

  lemma SamePosts(w: World, next: World, k: Kind)
    requires Takes(w, next, k) && !k.Posting?
    ensures next.posts == w.posts
  {
  }

  lemma PostingKeeps(w: World, next: World, id: nat, i: nat, side: Side)
    requires Inv(w.db) && PostsOk(w) && Takes(w, next, Posting(id, i, side))
    ensures PostsOk(next)
  {
    hide AwaitsControl, LegsOk;
    var wf := w.db.workflows[id];
    assert Fits(wf, w.db.machine.exec, w.db.machine.account);
    forall m | 0 <= m < |w.posts| && w.posts[m].workflow == id ensures w.posts[m].side.Buy? ==> side.Buy? {
      assert PostFits(w.db, w.posts[m]);
    }
  }

  lemma {:induction false} StepsKeepPosts(w: World, worlds: seq<World>)
    requires Inv(w.db) && PostsOk(w) && Steps(w, worlds)
    ensures PostsOk(At(w, worlds)) && Evolves(w, At(w, worlds)) && Inv(At(w, worlds).db)
    decreases |worlds|
  {
    hide Inv, Takes, PostsOk, Evolves;
    if worlds == [] {
      SameRecords(w, w);
    } else {
      var k :| Takes(w, worlds[0], k);
      StepKeepsInv(w, worlds[0], k);
      StepKeepsPosts(w, worlds[0], k);
      StepEvolves(w, worlds[0], k);
      StepsKeepPosts(worlds[0], worlds[1..]);
      EvolvesTwice(w, worlds[0], At(w, worlds));
    }
  }
}
