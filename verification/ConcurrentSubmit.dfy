// submit_current_phase called by any number of processes on one file-backed database: any
// interleaving, any broker answers, any crash (which frees the file lock).  The database
// steps are the same transactions as in a single process.
module ConcurrentSubmit {
  import opened Common
  import opened Capital
  import opened ExecutionTables
  import opened Executor
  import opened ExecutionSteps
  import CycleSteps

  // Where a process is inside submit_current_phase.  The candidates were read once, at the start.
  datatype Place =
    | Outside
    | Entered(id: nat)
    | Submitting(id: nat, side: Side, candidates: seq<nat>)
    | Intended(id: nat, side: Side, candidates: seq<nat>)
    | AfterPost(id: nat, side: Side, candidates: seq<nat>, reply: PostReply)

  datatype Config = Config(world: World, places: map<nat, Place>, holder: Option<nat>)

  // One move of one process.
  datatype Move =
    | Enter(id: nat)
    | Read(pendingKnown: bool)
    | Advance(reply: PostReply)
    | Crash

  datatype Turn = Turn(process: nat, move: Move)

  function PlaceOf(c: Config, p: nat): Place {
    if p in c.places then c.places[p] else Outside
  }

  function At(c: Config, p: nat, place: Place): Config {
    c.(places := c.places[p := place])
  }

  // Leaving the call, normally or by dying, gives the lock back.
  function Leave(c: Config, p: nat): Config {
    Config(c.world, c.places[p := Outside], if c.holder == Some(p) then None else c.holder)
  }

  // Reading the workflow and its legs: refused, stopped by an ambiguous intent, or a snapshot.
  function ReadSnapshot(c: Config, p: nat, id: nat, pendingKnown: bool): Config {
    var db := c.world.db;
    if id !in db.workflows then Leave(c, p)
    else
      var wf := db.workflows[id];
      if !wf.status.Active? || (!wf.phase.SellPhase? && !wf.phase.BuyPhase?) then Leave(c, p)
      else
        var side := if wf.phase.SellPhase? then Sell else Buy;
        var legs := LegsOf(wf.legs, side);
        if legs == [] then Leave(c, p)
        else if AnyAmbiguous(legs) then
          match RequireReconciliation(db, id)
          case Err(_) => Leave(c, p)
          case Ok((next, _)) => Leave(c.(world := c.world.(db := next)), p)
        else if !pendingKnown then Leave(c, p)
        else
          match (if side.Sell? then Ok(PlannedIndexes(wf.legs, Sell)) else BuyCandidates(db, wf.legs))
          case Err(_) => Leave(c, p)
          case Ok(candidates) => At(c, p, Submitting(id, side, candidates))
  }

  // With `locked` false the file lock is not there.
  function Step(c: Config, t: Turn, locked: bool): Config {
    var p, db := t.process, c.world.db;
    match t.move
    case Crash => Leave(c, p)
    case Enter(id) =>
      if PlaceOf(c, p) != Outside || (locked && c.holder.Some?) then c
      else At(c.(holder := Some(p)), p, Entered(id))
    case Read(pendingKnown) =>
      if PlaceOf(c, p).Entered? then ReadSnapshot(c, p, PlaceOf(c, p).id, pendingKnown) else c
    case Advance(reply) =>
      match PlaceOf(c, p)
      case Submitting(id, side, candidates) =>
        if candidates == [] then Leave(c, p)
        else
          (match RecordIntent(db, id, candidates[0])
           case Err(_) => Leave(c, p)
           case Ok(next) => At(c.(world := c.world.(db := next)), p, Intended(id, side, candidates)))
      case Intended(id, side, candidates) =>
        if candidates == [] then Leave(c, p)
        else
          At(c.(world := c.world.(posts := c.world.posts + [Post(id, candidates[0], side)])), p,
             AfterPost(id, side, candidates, reply))
      case AfterPost(id, side, candidates, answer) =>
        if candidates == [] then Leave(c, p)
        else if answer.Accepted? then
          (match RecordAcceptance(db, id, candidates[0], answer.orderId)
           case Err(_) => Leave(c, p)
           case Ok(next) => At(c.(world := c.world.(db := next)), p, Submitting(id, side, candidates[1..])))
        else
          (match RequireReconciliation(db, id)
           case Err(_) => Leave(c, p)
           case Ok((next, _)) => Leave(c.(world := c.world.(db := next)), p))
      case _ => c
  }

  function Run(c: Config, turns: seq<Turn>, locked: bool): Config {
    if turns == [] then c else Step(Run(c, DropLast(turns), locked), Last(turns), locked)
  }

  /* ---- With the lock ---- */

  ghost predicate LegHas(db: Db, id: nat, i: nat, status: LegStatus) {
    id in db.workflows && i < |db.workflows[id].legs| && db.workflows[id].legs[i].status == status
  }

  ghost predicate StillPlanned(db: Db, id: nat, candidates: seq<nat>) {
    && (forall k :: 0 <= k < |candidates| ==> LegHas(db, id, candidates[k], Planned))
    && (forall k, m :: 0 <= k < m < |candidates| ==> candidates[k] != candidates[m])
  }

  // A process inside works on a snapshot that is still true.
  ghost predicate PlaceOk(c: Config, place: Place) {
    var db := c.world.db;
    match place
    case Submitting(id, side, candidates) => StillPlanned(db, id, candidates)
    case Intended(id, side, candidates) =>
      && candidates != [] && StillPlanned(db, id, candidates[1..]) && candidates[0] !in candidates[1..]
      && LegHas(db, id, candidates[0], IntentRecorded) && Unposted(c.world, id, candidates[0])
    case AfterPost(id, side, candidates, reply) =>
      && candidates != [] && StillPlanned(db, id, candidates[1..]) && candidates[0] !in candidates[1..]
    case _ => true
  }

  ghost predicate PostedOnce(posts: seq<Post>) {
    forall i, j :: 0 <= i < j < |posts| ==> posts[i].workflow != posts[j].workflow || posts[i].leg != posts[j].leg
  }

  // A POST is for a leg whose intent is durable.
  ghost predicate PostBacked(db: Db, p: Post) {
    && p.workflow in db.workflows && p.leg < |db.workflows[p.workflow].legs|
    && !db.workflows[p.workflow].legs[p.leg].status.Planned?
  }

  ghost predicate Exclusive(c: Config) {
    forall p :: p in c.places && c.places[p] != Outside ==> c.holder == Some(p)
  }

  ghost predicate Safe(c: Config) {
    && Exclusive(c)
    && (forall p :: p in c.places ==> PlaceOk(c, c.places[p]))
    && PostedOnce(c.world.posts)
    && (forall k :: 0 <= k < |c.world.posts| ==> PostBacked(c.world.db, c.world.posts[k]))
  }

  // No leg returns to PLANNED, and none disappears.
  ghost predicate LegsOnward(db: Db, next: Db) {
    forall id :: id in db.workflows ==>
      && id in next.workflows && |next.workflows[id].legs| == |db.workflows[id].legs|
      && forall i :: 0 <= i < |db.workflows[id].legs| && !db.workflows[id].legs[i].status.Planned? ==>
           !next.workflows[id].legs[i].status.Planned?
  }

  lemma BackedStays(db: Db, next: Db, posts: seq<Post>)
    requires LegsOnward(db, next) && forall k :: 0 <= k < |posts| ==> PostBacked(db, posts[k])
    ensures forall k :: 0 <= k < |posts| ==> PostBacked(next, posts[k])
  {
    forall k | 0 <= k < |posts| ensures PostBacked(next, posts[k]) {
      assert PostBacked(db, posts[k]);
    }
  }

  // The legs of workflow id other than i are untouched, and nothing else is.
  ghost predicate OnlyLeg(db: Db, next: Db, id: nat, i: nat) {
    && id in db.workflows && next.workflows.Keys == db.workflows.Keys && i < |db.workflows[id].legs|
    && (forall other :: other in db.workflows && other != id ==> next.workflows[other] == db.workflows[other])
    && |next.workflows[id].legs| == |db.workflows[id].legs|
    && (forall j :: 0 <= j < |db.workflows[id].legs| && j != i ==> next.workflows[id].legs[j] == db.workflows[id].legs[j])
  }

  lemma RequireOnward(db: Db, id: nat)
    requires RequireReconciliation(db, id).Ok?
    ensures LegsOnward(db, RequireReconciliation(db, id).value.0)
  {
    hide FindRow, ValidMachine;
  }

  // Leaving: everyone is outside afterwards.
  lemma LeaveSafe(c: Config, world: World, p: nat)
    requires Safe(c) && c.holder == Some(p) && world.posts == c.world.posts && LegsOnward(c.world.db, world.db)
    ensures Safe(Leave(c.(world := world), p))
  {
    hide PlaceOk, PostedOnce, PostBacked, LegsOnward;
    var next := Leave(c.(world := world), p);
    BackedStays(c.world.db, world.db, world.posts);
    forall q | q in next.places ensures next.places[q] == Outside {
    }
    EveryoneOut(next);
  }

  lemma EveryoneOut(c: Config)
    requires forall q :: q in c.places ==> c.places[q] == Outside
    ensures Exclusive(c) && forall q :: q in c.places ==> PlaceOk(c, c.places[q])
  {
  }

  lemma CrashSafe(c: Config, p: nat)
    requires Safe(c)
    ensures Safe(Leave(c, p))
  {
    hide PostedOnce, PostBacked, StillPlanned;
    var next := Leave(c, p);
    forall q | q in next.places ensures PlaceOk(next, next.places[q]) {
      if q != p {
        assert PlaceOk(c, c.places[q]);
      }
    }
  }

  // The holder moves on: nobody else is inside.
  lemma HolderMoves(c: Config, p: nat, place: Place, next: Config)
    requires Exclusive(c) && c.holder == Some(p)
    requires next.places == c.places[p := place] && next.holder == Some(p) && PlaceOk(next, place)
    ensures Exclusive(next) && forall q :: q in next.places ==> PlaceOk(next, next.places[q])
  {
    forall q | q in next.places ensures PlaceOk(next, next.places[q]) {
      if q != p {
        assert c.places[q] == Outside;
      }
    }
  }

  lemma ReadSafe(c: Config, p: nat, id: nat, pendingKnown: bool)
    requires Safe(c) && c.holder == Some(p)
    ensures Safe(ReadSnapshot(c, p, id, pendingKnown))
    ensures LegsOnward(c.world.db, ReadSnapshot(c, p, id, pendingKnown).world.db)
  {
    hide Safe, LegsOnward, RequireReconciliation, BuyCandidates, PlannedIndexes, AnyAmbiguous;
    Onward(c.world.db);
    LeaveSafe(c, c.world, p);
    var next := ReadSnapshot(c, p, id, pendingKnown);
    if PlaceOf(next, p).Submitting? {
      SnapshotSafe(c, p, id, pendingKnown);
    } else if next.world != c.world {
      RequireOnward(c.world.db, id);
      LeaveSafe(c, next.world, p);
    }
  }

  lemma Onward(db: Db)
    ensures LegsOnward(db, db)
  {
  }

  lemma SnapshotSafe(c: Config, p: nat, id: nat, pendingKnown: bool)
    requires Safe(c) && c.holder == Some(p) && PlaceOf(ReadSnapshot(c, p, id, pendingKnown), p).Submitting?
    ensures Safe(ReadSnapshot(c, p, id, pendingKnown))
  {
    hide PostedOnce, PostBacked, RequireReconciliation, AnyAmbiguous, PlannedIndexes;
    var next := ReadSnapshot(c, p, id, pendingKnown);
    var place := PlaceOf(next, p);
    var legs := c.world.db.workflows[id].legs;
    CycleSteps.PlannedIndexesAre(legs, place.side);
    var planned := PlannedIndexes(legs, place.side);
    forall k | 0 <= k < |place.candidates| ensures LegHas(c.world.db, id, place.candidates[k], Planned) {
      assert place.candidates[k] in planned;
    }
    HolderMoves(c, p, place, next);
  }

  lemma IntendSafe(c: Config, p: nat, id: nat, side: Side, candidates: seq<nat>)
    requires Safe(c) && c.holder == Some(p) && p in c.places && c.places[p] == Submitting(id, side, candidates)
    requires candidates != [] && RecordIntent(c.world.db, id, candidates[0]).Ok?
    ensures var next := RecordIntent(c.world.db, id, candidates[0]).value;
            && LegsOnward(c.world.db, next)
            && Safe(At(c.(world := c.world.(db := next)), p, Intended(id, side, candidates)))
  {
    hide PostedOnce;
    var db, i := c.world.db, candidates[0];
    var next := RecordIntent(db, id, i).value;
    assert PlaceOk(c, c.places[p]);
    assert LegHas(db, id, i, Planned);
    forall k | 0 <= k < |c.world.posts| ensures c.world.posts[k].workflow != id || c.world.posts[k].leg != i {
      assert PostBacked(db, c.world.posts[k]);
    }
    var c' := At(c.(world := c.world.(db := next)), p, Intended(id, side, candidates));
    RestPlanned(db, next, id, candidates);
    BackedStays(db, next, c.world.posts);
    HolderMoves(c, p, Intended(id, side, candidates), c');
  }

  lemma RestPlanned(db: Db, next: Db, id: nat, candidates: seq<nat>)
    requires candidates != [] && StillPlanned(db, id, candidates) && OnlyLeg(db, next, id, candidates[0])
    ensures StillPlanned(next, id, candidates[1..]) && candidates[0] !in candidates[1..]
  {
    var rest := candidates[1..];
    forall k | 0 <= k < |rest| ensures LegHas(next, id, rest[k], Planned) && rest[k] != candidates[0] {
      assert rest[k] == candidates[k + 1];
      assert LegHas(db, id, candidates[k + 1], Planned);
    }
  }

  lemma PostSafe(c: Config, p: nat, id: nat, side: Side, candidates: seq<nat>, reply: PostReply)
    requires Safe(c) && c.holder == Some(p) && p in c.places && c.places[p] == Intended(id, side, candidates)
    ensures candidates != []
    ensures Safe(At(c.(world := c.world.(posts := c.world.posts + [Post(id, candidates[0], side)])), p,
                    AfterPost(id, side, candidates, reply)))
  {
    assert PlaceOk(c, c.places[p]);
    var next := At(c.(world := c.world.(posts := c.world.posts + [Post(id, candidates[0], side)])), p,
                   AfterPost(id, side, candidates, reply));
    HolderMoves(c, p, AfterPost(id, side, candidates, reply), next);
  }

  lemma AcceptSafe(c: Config, p: nat, id: nat, side: Side, candidates: seq<nat>, reply: PostReply)
    requires Safe(c) && c.holder == Some(p) && p in c.places && c.places[p] == AfterPost(id, side, candidates, reply)
    requires candidates != [] && reply.Accepted? && RecordAcceptance(c.world.db, id, candidates[0], reply.orderId).Ok?
    ensures var next := RecordAcceptance(c.world.db, id, candidates[0], reply.orderId).value;
            && LegsOnward(c.world.db, next)
            && Safe(At(c.(world := c.world.(db := next)), p, Submitting(id, side, candidates[1..])))
  {
    hide PostedOnce;
    assert PlaceOk(c, c.places[p]);
    var db := c.world.db;
    var next := RecordAcceptance(db, id, candidates[0], reply.orderId).value;
    var rest := candidates[1..];
    forall k | 0 <= k < |rest| ensures LegHas(next, id, rest[k], Planned) {
      assert LegHas(db, id, rest[k], Planned);
    }
    BackedStays(db, next, c.world.posts);
    HolderMoves(c, p, Submitting(id, side, rest), At(c.(world := c.world.(db := next)), p, Submitting(id, side, rest)));
  }

  lemma StepSafe(c: Config, t: Turn)
    requires Safe(c)
    ensures Safe(Step(c, t, true)) && LegsOnward(c.world.db, Step(c, t, true).world.db)
  {
    hide Safe, LegsOnward, RecordIntent, RecordAcceptance, RequireReconciliation, ReadSnapshot;
    var p := t.process;
    Onward(c.world.db);
    match t.move
    case Crash => CrashSafe(c, p);
    case Enter(id) => EnterSafe(c, p, id);
    case Read(pendingKnown) =>
      if PlaceOf(c, p).Entered? {
        HolderIs(c, p);
        ReadSafe(c, p, PlaceOf(c, p).id, pendingKnown);
      }
    case Advance(reply) =>
      if PlaceOf(c, p).Submitting? || PlaceOf(c, p).Intended? || PlaceOf(c, p).AfterPost? {
        HolderIs(c, p);
        AdvanceSafe(c, p, reply);
      }
  }

  lemma HolderIs(c: Config, p: nat)
    requires Safe(c) && PlaceOf(c, p) != Outside
    ensures c.holder == Some(p) && p in c.places
  {
  }

  lemma EnterSafe(c: Config, p: nat, id: nat)
    requires Safe(c)
    ensures Safe(Step(c, Turn(p, Enter(id)), true))
  {
    hide PostedOnce, PostBacked, StillPlanned;
    var next := Step(c, Turn(p, Enter(id)), true);
    if next != c {
      forall q | q in next.places && q != p ensures next.places[q] == Outside {
      }
    }
  }

  lemma AdvanceSafe(c: Config, p: nat, reply: PostReply)
    requires Safe(c) && c.holder == Some(p) && p in c.places
    requires c.places[p].Submitting? || c.places[p].Intended? || c.places[p].AfterPost?
    ensures Safe(Step(c, Turn(p, Advance(reply)), true))
    ensures LegsOnward(c.world.db, Step(c, Turn(p, Advance(reply)), true).world.db)
  {
    hide Safe, LegsOnward, RecordIntent, RecordAcceptance, RequireReconciliation;
    Onward(c.world.db);
    LeaveSafe(c, c.world, p);
    var db := c.world.db;
    match c.places[p]
    case Submitting(id, side, candidates) =>
      if candidates != [] && RecordIntent(db, id, candidates[0]).Ok? {
        IntendSafe(c, p, id, side, candidates);
      }
    case Intended(id, side, candidates) =>
      PostSafe(c, p, id, side, candidates, reply);
    case AfterPost(id, side, candidates, answer) =>
      if candidates != [] {
        if answer.Accepted? {
          if RecordAcceptance(db, id, candidates[0], answer.orderId).Ok? {
            AcceptSafe(c, p, id, side, candidates, answer);
          }
        } else if RequireReconciliation(db, id).Ok? {
          RequireOnward(db, id);
          LeaveSafe(c, c.world.(db := RequireReconciliation(db, id).value.0), p);
        }
      }
  }

  // Nobody inside, nothing posted.
  ghost predicate Quiet(c: Config) {
    c.places == map[] && c.holder.None? && c.world.posts == []
  }

  // At most once: in every run of any number of processes, no leg is POSTed twice, every POST
  // is for a leg with a durable intent, and no leg goes back to PLANNED.
  lemma {:induction false} AtMostOncePost(c: Config, turns: seq<Turn>)
    requires Quiet(c)
    ensures var r := Run(c, turns, true);
            && Safe(r) && PostedOnce(r.world.posts)
            && (forall k :: 0 <= k < |r.world.posts| ==> PostBacked(r.world.db, r.world.posts[k]))
            && LegsOnward(c.world.db, r.world.db)
  {
    hide Step, PlaceOk;
    if turns != [] {
      AtMostOncePost(c, DropLast(turns));
      StepSafe(Run(c, DropLast(turns), true), Last(turns));
    }
  }

  // The intent is durable before the POST goes out.
  lemma IntentBeforePost(c: Config, turns: seq<Turn>, t: Turn)
    requires Quiet(c)
    ensures var r := Run(c, turns, true);
            var next := Step(r, t, true);
            next.world.posts != r.world.posts ==>
              exists id, i, side :: next.world.posts == r.world.posts + [Post(id, i, side)] && LegHas(r.world.db, id, i, IntentRecorded)
  {
    hide RecordIntent, RecordAcceptance, RequireReconciliation, ReadSnapshot, Run;
    AtMostOncePost(c, turns);
    var r := Run(c, turns, true);
    var next := Step(r, t, true);
    if next.world.posts != r.world.posts {
      ReadPostsNothing(r, t);
      var place := PlaceOf(r, t.process);
      assert PlaceOk(r, place);
      assert next.world.posts == r.world.posts + [Post(place.id, place.candidates[0], place.side)];
    }
  }

  lemma ReadPostsNothing(c: Config, t: Turn)
    ensures t.move.Read? ==> Step(c, t, true).world.posts == c.world.posts
  {
    hide RequireReconciliation, BuyCandidates, PlannedIndexes, AnyAmbiguous;
  }

  /* ---- Without the lock ---- */

  const OneSell := Workflow(Plan(7, false, 0), Active, SellPhase, [Leg(LegSpec(Sell, 1, 1.0, None), Planned, None)])

  const Unlocked := Config(World(Db(Machine(Account(3, 0, 0, 0), SellPending), map[7 := OneSell], [], []), []), map[], None)

  const Race := [
    Turn(0, Enter(7)), Turn(1, Enter(7)), Turn(0, Read(true)), Turn(1, Read(true)),
    Turn(0, Advance(Raised)), Turn(1, Advance(Raised)), Turn(0, Advance(Raised)), Turn(1, Advance(Raised))]

  // The lock is needed: an intent already recorded is passed over in silence, so two
  // processes with the same snapshot both POST the leg.
  lemma WithoutLockTwice()
    ensures Quiet(Unlocked)
    ensures Run(Unlocked, Race, false).world.posts == [Post(7, 0, Sell), Post(7, 0, Sell)]
  {
    hide Run, Step;
    RaceReads();
    RunNext(4); RunNext(5); RunNext(6); RunNext(7);
    RacePosts(Run(Unlocked, Race[..4], false));
    assert Race[..8] == Race;
  }

  // Both record the same intent, then both POST.
  lemma RacePosts(c: Config)
    requires c.world == Unlocked.world && c.places == map[0 := Snapshot, 1 := Snapshot]
    ensures var c5 := Step(c, Race[4], false);
            var c6 := Step(c5, Race[5], false);
            var c7 := Step(c6, Race[6], false);
            Step(c7, Race[7], false).world.posts == [Post(7, 0, Sell), Post(7, 0, Sell)]
  {
    var db := c.world.db;
    var next := RecordIntent(db, 7, 0).value;
    assert RecordIntent(next, 7, 0) == Ok(next);
    hide RecordIntent;
    var waiting := Intended(7, Sell, [0]);
    assert Step(c, Race[4], false) == At(c.(world := c.world.(db := next)), 0, waiting);
    var c5 := At(c.(world := c.world.(db := next)), 0, waiting);
    assert Step(c5, Race[5], false) == At(c5, 1, waiting);
    var c6 := At(c5, 1, waiting);
    var c7 := At(c6.(world := c6.world.(posts := [Post(7, 0, Sell)])), 0, AfterPost(7, Sell, [0], Raised));
    assert Step(c6, Race[6], false) == c7;
  }

  lemma RunNext(k: nat)
    requires k < |Race|
    ensures Run(Unlocked, Race[..k + 1], false) == Step(Run(Unlocked, Race[..k], false), Race[k], false)
  {
    assert DropLast(Race[..k + 1]) == Race[..k];
  }

  const Snapshot := Submitting(7, Sell, [0])

  // Entering needs no lock here, and the two reads see the same planned leg.
  lemma RaceReads()
    ensures var c := Run(Unlocked, Race[..4], false);
            c.world == Unlocked.world && c.places == map[0 := Snapshot, 1 := Snapshot]
  {
    hide Run, ReadSnapshot;
    RunNext(0); RunNext(1); RunNext(2); RunNext(3);
    RunNothing(Unlocked);
    assert Race[..0] == [];
    var c2 := Config(Unlocked.world, map[0 := Entered(7), 1 := Entered(7)], Some(1));
    assert Run(Unlocked, Race[..1], false) == Config(Unlocked.world, map[0 := Entered(7)], Some(0));
    assert Run(Unlocked, Race[..2], false) == c2;
    ReadsPlanned(c2, 0);
    var c3 := At(c2, 0, Snapshot);
    assert Run(Unlocked, Race[..3], false) == c3;
    ReadsPlanned(c3, 1);
  }

  lemma RunNothing(c: Config)
    ensures Run(c, [], false) == c
  {
  }

  lemma ReadsPlanned(c: Config, p: nat)
    requires c.world == Unlocked.world
    ensures ReadSnapshot(c, p, 7, true) == At(c, p, Snapshot)
  {
    assert DropLast(OneSell.legs) == [];
    assert LegsOf(OneSell.legs, Sell) == OneSell.legs;
    assert PlannedIndexes(OneSell.legs, Sell) == [0];
    assert !AnyAmbiguous(OneSell.legs);
  }
}
