// When the records of a history do not depend on how it was split into pages.  Identities agree
// only within a tolerance, so a split decides which snapshots are compared with which.
module HistorySplits {
  import opened Common
  import opened History

  /* ---- Merging without the checks ---- */

  function Fuse(a: Record, b: Record): Record {
    Winner(a, b).(fills := a.fills + b.fills)
  }

  function Fused(a: Records, b: Records, id: nat): Record
    requires id in a || id in b
  {
    if id in a && id in b then Fuse(a[id], b[id]) else if id in a then a[id] else b[id]
  }

  function FuseAll(a: Records, b: Records): Records {
    map id | id in a.Keys + b.Keys :: Fused(a, b, id)
  }

  function Single(item: Record): Records {
    map[item.orderId := item]
  }

  // The records of these items, had no check ever failed.
  function Summary(items: seq<Record>): Records {
    if items == [] then map[] else FuseAll(Summary(DropLast(items)), Single(Last(items)))
  }

  lemma FuseAssociates(a: Record, b: Record, c: Record)
    ensures Fuse(Fuse(a, b), c) == Fuse(a, Fuse(b, c))
  {
    assert (a.fills + b.fills) + c.fills == a.fills + (b.fills + c.fills);
  }

  lemma FuseAllAssociates(a: Records, b: Records, c: Records)
    ensures FuseAll(FuseAll(a, b), c) == FuseAll(a, FuseAll(b, c))
  {
    hide Fuse;
    var l, r := FuseAll(FuseAll(a, b), c), FuseAll(a, FuseAll(b, c));
    assert l.Keys == r.Keys;
    forall id | id in l ensures l[id] == r[id] {
      if id in a && id in b && id in c {
        FuseAssociates(a[id], b[id], c[id]);
      }
    }
  }

  lemma {:induction false} SummaryOfTwo(a: seq<Record>, b: seq<Record>)
    ensures Summary(a + b) == FuseAll(Summary(a), Summary(b))
  {
    hide FuseAll;
    if b == [] {
      assert a + b == a;
      FuseNothing(Summary(a));
    } else {
      assert DropLast(a + b) == a + DropLast(b);
      SummaryOfTwo(a, DropLast(b));
      FuseAllAssociates(Summary(a), Summary(DropLast(b)), Single(Last(b)));
    }
  }

  lemma FuseNothing(a: Records)
    ensures FuseAll(a, map[]) == a
  {
  }

  lemma JoinIsFuse(a: Records, b: Records)
    ensures Join(a, b) == if AnyConflict(a, b) then Err(SchemaConflict) else Ok(FuseAll(a, b))
  {
    hide FillsConflict, SameIdentity, Winner;
    if !AnyConflict(a, b) {
      var l, r := Join(a, b).value, FuseAll(a, b);
      assert l.Keys == r.Keys;
      forall id | id in l ensures l[id] == r[id] {
        assert id in a && id in b ==> Merge(a[id], b[id]).Ok?;
      }
      assert l == r;
    }
  }

  // Item j meets what the items before it came to.
  predicate Meets(items: seq<Record>, j: nat)
    requires j < |items|
  {
    !AnyConflict(Summary(items[..j]), Single(items[j]))
  }

  lemma {:induction false} PageIsSummary(items: seq<Record>)
    ensures PageRecords(items) == if (forall j :: 0 <= j < |items| ==> Meets(items, j)) then Ok(Summary(items)) else Err(SchemaConflict)
  {
    hide Join, AnyConflict, FuseAll;
    if items != [] {
      var front := DropLast(items);
      PageIsSummary(front);
      JoinIsFuse(Summary(front), Single(Last(items)));
      forall j | 0 <= j < |front| ensures Meets(items, j) <==> Meets(front, j) {
        assert items[..j] == front[..j];
      }
      assert items[..|front|] == front;
      assert Meets(items, |front|) <==> !AnyConflict(Summary(front), Single(Last(items)));
    }
  }

  lemma AddedPage(pages: seq<seq<Record>>, page: seq<Record>)
    ensures AllPages(pages + [page]) == (var before :- AllPages(pages); var added :- PageRecords(page); Join(before, added))
    ensures Flatten(pages + [page]) == Flatten(pages) + page
  {
    assert DropLast(pages + [page]) == pages;
  }

  // A split that succeeds yields the summary of the items, however it was cut.
  lemma {:induction false} SplitValue(pages: seq<seq<Record>>)
    ensures AllPages(pages).Ok? ==> AllPages(pages).value == Summary(Flatten(pages))
    ensures AllPages(pages).Err? ==> AllPages(pages).error == SchemaConflict
  {
    hide Join, FuseAll, AnyConflict;
    if pages != [] {
      var front := DropLast(pages);
      SplitValue(front);
      PageIsSummary(Last(pages));
      SummaryOfTwo(Flatten(front), Last(pages));
      if AllPages(front).Ok? {
        JoinIsFuse(AllPages(front).value, Summary(Last(pages)));
      }
    }
  }

  // Two splits of the same items that both succeed agree on every record.
  lemma SuccessfulSplitsAgree(pages: seq<seq<Record>>, pages': seq<seq<Record>>)
    requires Flatten(pages) == Flatten(pages') && AllPages(pages).Ok? && AllPages(pages').Ok?
    ensures AllPages(pages) == AllPages(pages')
  {
    SplitValue(pages);
    SplitValue(pages');
  }

  /* ---- Which snapshots are compared ---- */

  // Snapshot i of an order meets snapshot j: on one page, or as the best of two parts.
  ghost predicate Compared(items: seq<Record>, i: nat, j: nat) {
    && i < j < |items| && items[i].orderId == items[j].orderId
    && (|| LastFullest(items[i..j], items[i].orderId, 0)
        || exists y :: i < y <= j && LastFullest(items[..y], items[i].orderId, i) && LastFullest(items[y..j + 1], items[i].orderId, j - y))
  }

  ghost function Size(x: real): real {
    if x < 0.0 then -x else x
  }

  // One ticker, side and date of creation, and sizes of the order within the tolerance.
  ghost predicate OneIdentity(a: Record, b: Record) {
    && a.orderId == b.orderId && a.ticker == b.ticker && a.side == b.side && a.createdAt == b.createdAt
    && -IDENTITY_TOLERANCE <= Size(a.ordered) - Size(b.ordered) <= IDENTITY_TOLERANCE
  }

  lemma IdentityIs()
    ensures forall a, b :: OneIdentity(a, b) <==> SameIdentity(a, b)
  {
  }

  // Snapshots that meet have one identity, and no two snapshots of an order state a fill differently.
  ghost predicate AgreeWhenCompared(items: seq<Record>) {
    && (forall i: nat, j: nat :: Compared(items, i, j) ==> OneIdentity(items[i], items[j]))
    && FillsAgree(items)
  }

  ghost predicate FillsAgree(items: seq<Record>) {
    forall i, j, f :: 0 <= i < j < |items| && items[i].orderId == items[j].orderId && f in items[i].fills && f in items[j].fills ==>
      items[i].fills[f] == items[j].fills[f]
  }

  // Where the entries of an order's summary come from.
  ghost predicate FillsFromItems(items: seq<Record>, orderId: nat, fills: map<nat, Fill>) {
    && (forall f :: f in fills ==> exists i :: 0 <= i < |items| && items[i].orderId == orderId && f in items[i].fills && fills[f] == items[i].fills[f])
    && (forall i, f :: 0 <= i < |items| && items[i].orderId == orderId && f in items[i].fills ==> f in fills)
  }

  lemma {:induction false} SummaryRecord(items: seq<Record>, orderId: nat) returns (w: nat)
    ensures orderId in Summary(items) <==> exists i :: 0 <= i < |items| && items[i].orderId == orderId
    ensures orderId in Summary(items) ==>
              var r := Summary(items)[orderId];
              LastFullest(items, orderId, w) && r == items[w].(fills := r.fills) && FillsFromItems(items, orderId, r.fills)
  {
    hide LastFullest, FillsFromItems, Winner;
    w := 0;
    if items != [] {
      var front, item := DropLast(items), Last(items);
      assert items == front + [item];
      w := SummaryRecord(front, orderId);
      var before, after := Summary(front), Summary(items);
      if item.orderId == orderId {
        assert items[|front|] == item;
        if orderId in before {
          NextFullest(front, item, before[orderId], w);
          NextSources(front, item, before[orderId].fills);
          WinnerIs(before[orderId], item);
          w := if Magnitude(before[orderId].filled) > Magnitude(item.filled) then w else |front|;
        } else {
          FirstItem(front, item);
          FirstSources(front, item);
          w := |front|;
        }
      } else {
        assert orderId in before <==> orderId in after;
        OtherItem(front, item, orderId);
        if orderId in before {
          assert after[orderId] == before[orderId];
          OtherSources(front, item, orderId, before[orderId].fills);
          OtherFullest(front, item, orderId, w);
        }
      }
    }
  }

  lemma WinnerIs(a: Record, b: Record)
    ensures Winner(a, b) == if Magnitude(a.filled) > Magnitude(b.filled) then a else b
  {
  }

  lemma OtherFullest(front: seq<Record>, item: Record, orderId: nat, w: nat)
    requires item.orderId != orderId && LastFullest(front, orderId, w)
    ensures LastFullest(front + [item], orderId, w) && (front + [item])[w] == front[w]
  {
  }

  lemma OtherSources(front: seq<Record>, item: Record, orderId: nat, fills: map<nat, Fill>)
    requires item.orderId != orderId && FillsFromItems(front, orderId, fills)
    ensures FillsFromItems(front + [item], orderId, fills)
  {
    var items := front + [item];
    forall f | f in fills
      ensures exists i :: 0 <= i < |items| && items[i].orderId == orderId && f in items[i].fills && fills[f] == items[i].fills[f]
    {
      var i :| 0 <= i < |front| && front[i].orderId == orderId && f in front[i].fills && fills[f] == front[i].fills[f];
      assert items[i] == front[i];
    }
  }

  lemma FirstSources(front: seq<Record>, item: Record)
    requires forall i :: 0 <= i < |front| ==> front[i].orderId != item.orderId
    ensures FillsFromItems(front + [item], item.orderId, item.fills)
  {
    assert (front + [item])[|front|] == item;
  }

  lemma NextSources(front: seq<Record>, item: Record, kept: map<nat, Fill>)
    requires FillsFromItems(front, item.orderId, kept)
    ensures FillsFromItems(front + [item], item.orderId, kept + item.fills)
  {
    var items, fills := front + [item], kept + item.fills;
    assert items[|front|] == item;
    forall f | f in fills
      ensures exists i :: 0 <= i < |items| && items[i].orderId == item.orderId && f in items[i].fills && fills[f] == items[i].fills[f]
    {
      if f !in item.fills {
        var i :| 0 <= i < |front| && front[i].orderId == item.orderId && f in front[i].fills && kept[f] == front[i].fills[f];
        assert items[i] == front[i];
      }
    }
  }

  // Two parts of the items conflict on an order exactly if their best snapshots do, or their fills.
  lemma PartsMeet(a: seq<Record>, b: seq<Record>, orderId: nat) returns (i: nat, j: nat)
    requires orderId in Summary(a) && orderId in Summary(b)
    ensures LastFullest(a, orderId, i) && LastFullest(b, orderId, j)
    ensures Merge(Summary(a)[orderId], Summary(b)[orderId]).Ok? <==>
              SameIdentity(a[i], b[j]) && !FillsConflict(Summary(a)[orderId].fills, Summary(b)[orderId].fills)
    ensures FillsFromItems(a, orderId, Summary(a)[orderId].fills) && FillsFromItems(b, orderId, Summary(b)[orderId].fills)
  {
    hide LastFullest, FillsFromItems, FillsConflict;
    i := SummaryRecord(a, orderId);
    j := SummaryRecord(b, orderId);
  }

  lemma OneFullest(items: seq<Record>, orderId: nat, v: nat, w: nat)
    requires LastFullest(items, orderId, v) && LastFullest(items, orderId, w)
    ensures v == w
  {
  }

  lemma SingleSummary(item: Record)
    ensures Summary([item]) == Single(item)
  {
    assert DropLast([item]) == [];
    assert FuseAll(map[], Single(item)) == Single(item);
  }

  /* ---- Agreement makes every split succeed ---- */

  lemma PartsAgree(items: seq<Record>, x: nat, y: nat, z: nat)
    requires x <= y <= z <= |items| && AgreeWhenCompared(items) && (x == 0 || z == y + 1)
    ensures !AnyConflict(Summary(items[x..y]), Summary(items[y..z]))
  {
    hide LastFullest, Summary, SameIdentity, FillsConflict, Compared, FillsAgree, FillsFromItems, Merge;
    var a, b := items[x..y], items[y..z];
    forall id | id in Summary(a) && id in Summary(b) ensures Merge(Summary(a)[id], Summary(b)[id]).Ok? {
      var i, j := PartsMeet(a, b, id);
      BestAreCompared(items, x, y, z, id, i, j);
      IdentityIs();
      assert OneIdentity(items[x + i], items[y + j]);
      InPart(items, x, y, id, i);
      InPart(items, y, z, id, j);
      SourcesAgree(items, x, y, z, id, Summary(a)[id].fills, Summary(b)[id].fills);
    }
  }

  lemma InPart(items: seq<Record>, x: nat, y: nat, id: nat, i: nat)
    requires x <= y <= |items| && LastFullest(items[x..y], id, i)
    ensures x + i < y && items[x..y][i] == items[x + i] && items[x + i].orderId == id
  {
  }

  lemma BestAreCompared(items: seq<Record>, x: nat, y: nat, z: nat, id: nat, i: nat, j: nat)
    requires x <= y <= z <= |items| && (x == 0 || z == y + 1)
    requires LastFullest(items[x..y], id, i) && LastFullest(items[y..z], id, j)
    ensures Compared(items, x + i, y + j)
  {
    InPart(items, x, y, id, i);
    InPart(items, y, z, id, j);
    if x == 0 {
      assert items[0..y] == items[..y];
      var part := items[y..y + j + 1];
      assert part == items[y..z][..j + 1];
      assert LastFullest(part, id, j);
    } else {
      var tail := items[x + i..y];
      assert forall m :: 0 <= m < |tail| ==> tail[m] == items[x..y][m + i];
      assert LastFullest(tail, id, 0);
    }
  }

  // An entry of a part's summary comes from an item of that part.
  lemma SourceInPart(items: seq<Record>, x: nat, y: nat, id: nat, fills: map<nat, Fill>, f: nat) returns (i: nat)
    requires x <= y <= |items| && FillsFromItems(items[x..y], id, fills) && f in fills
    ensures x <= i < y && items[i].orderId == id && f in items[i].fills && fills[f] == items[i].fills[f]
  {
    var part := items[x..y];
    var k :| 0 <= k < |part| && part[k].orderId == id && f in part[k].fills && fills[f] == part[k].fills[f];
    i := x + k;
  }

  lemma SourcesAgree(items: seq<Record>, x: nat, y: nat, z: nat, id: nat, a: map<nat, Fill>, b: map<nat, Fill>)
    requires x <= y <= z <= |items| && FillsAgree(items)
    requires FillsFromItems(items[x..y], id, a) && FillsFromItems(items[y..z], id, b)
    ensures !FillsConflict(a, b)
  {
    hide FillsFromItems;
    forall f | f in a && f in b ensures a[f] == b[f] {
      var i := SourceInPart(items, x, y, id, a, f);
      var j := SourceInPart(items, y, z, id, b, f);
      assert !FillsConflict(items[i].fills, items[j].fills);
    }
  }

  lemma PartOk(items: seq<Record>, x: nat, z: nat)
    requires x <= z <= |items| && AgreeWhenCompared(items)
    ensures PageRecords(items[x..z]) == Ok(Summary(items[x..z]))
  {
    hide AgreeWhenCompared, Summary, AnyConflict;
    var page := items[x..z];
    PageIsSummary(page);
    forall j | 0 <= j < |page| ensures Meets(page, j) {
      assert page[..j] == items[x..x + j] && items[x + j..x + j + 1] == [page[j]];
      SingleSummary(page[j]);
      PartsAgree(items, x, x + j, x + j + 1);
    }
  }

  lemma {:induction false} SplitSucceeds(items: seq<Record>, pages: seq<seq<Record>>)
    requires AgreeWhenCompared(items) && Flatten(pages) <= items
    ensures AllPages(pages).Ok?
    decreases |pages|
  {
    hide AgreeWhenCompared, Summary, AnyConflict, Join, PageRecords;
    if pages != [] {
      var front, page := DropLast(pages), Last(pages);
      var y, z := |Flatten(front)|, |Flatten(pages)|;
      assert Flatten(front) == items[0..y] && page == items[y..z];
      SplitSucceeds(items, front);
      SplitValue(front);
      PartOk(items, y, z);
      PartsAgree(items, 0, y, z);
      JoinIsFuse(Summary(Flatten(front)), Summary(page));
    }
  }

  /* ---- A disagreement makes some split fail ---- */

  ghost predicate EverySplitSucceeds(items: seq<Record>) {
    forall pages :: Flatten(pages) == items ==> AllPages(pages).Ok?
  }

  // Two consecutive parts as pages, the rest before and behind them.
  lemma PartsOfSplit(items: seq<Record>, x: nat, y: nat, z: nat)
    requires x <= y <= z <= |items| && EverySplitSucceeds(items)
    ensures PageRecords(items[y..z]).Ok? && !AnyConflict(Summary(items[..y]), Summary(items[y..z]))
    ensures y < z ==> !AnyConflict(Summary(items[x..y]), Single(items[y]))
  {
    hide AnyConflict, Summary, Join, PageRecords, AllPages, Flatten;
    ThreePages(items, y, z);
    if y < z {
      ThreePages(items, x, z);
      PageIsSummary(items[x..z]);
      assert Meets(items[x..z], y - x);
      assert items[x..z][..y - x] == items[x..y] && items[x..z][y - x] == items[y];
    }
  }

  lemma ThreePages(items: seq<Record>, y: nat, z: nat)
    requires y <= z <= |items| && EverySplitSucceeds(items)
    ensures PageRecords(items[y..z]).Ok? && !AnyConflict(Summary(items[..y]), Summary(items[y..z]))
  {
    hide AnyConflict, Summary, Join, PageRecords;
    var one, two := [items[..y]], [items[..y]] + [items[y..z]];
    var pages := two + [items[z..]];
    AddedPage([], items[..y]);
    AddedPage(one, items[y..z]);
    AddedPage(two, items[z..]);
    assert [] + one == one;
    assert Flatten(one) == items[..y];
    assert Flatten(pages) == items;
    assert AllPages(pages).Ok? && AllPages(two).Ok? && AllPages(one).Ok?;
    SplitValue(one);
    PageIsSummary(items[y..z]);
    JoinIsFuse(Summary(items[..y]), Summary(items[y..z]));
  }

  lemma MetSnapshots(items: seq<Record>, i: nat, j: nat)
    requires EverySplitSucceeds(items) && Compared(items, i, j)
    ensures SameIdentity(items[i], items[j])
  {
    hide LastFullest, Summary, SameIdentity, FillsConflict, FillsFromItems, EverySplitSucceeds;
    var id := items[i].orderId;
    if LastFullest(items[i..j], id, 0) {
      PartsOfSplit(items, i, j, j + 1);
      assert items[j..j + 1] == [items[j]];
      SingleSummary(items[j]);
      AloneFullest(items[j]);
      MetParts(items, i, j, j + 1, 0, 0);
    } else {
      var y :| i < y <= j && LastFullest(items[..y], id, i) && LastFullest(items[y..j + 1], id, j - y);
      assert items[..y] == items[0..y];
      PartsOfSplit(items, 0, y, j + 1);
      MetParts(items, 0, y, j + 1, i, j - y);
    }
  }

  lemma AloneFullest(item: Record)
    ensures LastFullest([item], item.orderId, 0)
  {
  }

  lemma MetParts(items: seq<Record>, x: nat, y: nat, z: nat, i: nat, j: nat)
    requires x <= y <= z <= |items| && i < y - x && j < z - y
    requires LastFullest(items[x..y], items[x + i].orderId, i)
    requires LastFullest(items[y..z], items[x + i].orderId, j)
    requires !AnyConflict(Summary(items[x..y]), Summary(items[y..z]))
    ensures SameIdentity(items[x + i], items[y + j])
  {
    hide Summary, SameIdentity, FillsConflict, FillsFromItems, LastFullest;
    var id := items[x + i].orderId;
    var a, b := items[x..y], items[y..z];
    assert a[i] == items[x + i] && b[j] == items[y + j];
    InPart(items, y, z, id, j);
    SummaryHas(a, id, i);
    SummaryHas(b, id, j);
    var v, w := PartsMeet(a, b, id);
    OneFullest(a, id, v, i);
    OneFullest(b, id, w, j);
    assert Merge(Summary(a)[id], Summary(b)[id]).Ok?;
  }

  lemma SummaryHas(items: seq<Record>, id: nat, i: nat)
    requires i < |items| && items[i].orderId == id
    ensures id in Summary(items)
  {
    hide Summary, LastFullest, FillsFromItems;
    var _ := SummaryRecord(items, id);
  }

  // Whatever the summary of items i to j - 1 states of a fill, item j states too.
  lemma MetFill(items: seq<Record>, i: nat, j: nat, f: nat)
    requires EverySplitSucceeds(items) && i < j < |items| && items[i].orderId == items[j].orderId
    requires items[i].orderId in Summary(items[i..j]) && f in Summary(items[i..j])[items[i].orderId].fills && f in items[j].fills
    ensures Summary(items[i..j])[items[i].orderId].fills[f] == items[j].fills[f]
  {
    hide Summary, SameIdentity, EverySplitSucceeds;
    PartsOfSplit(items, i, j, j + 1);
    assert Merge(Summary(items[i..j])[items[i].orderId], items[j]).Ok?;
  }

  // The last snapshot before j that states this fill states it as j does.
  lemma {:induction false} StatedAlike(items: seq<Record>, i: nat, j: nat, f: nat)
    requires EverySplitSucceeds(items) && i < j < |items| && items[i].orderId == items[j].orderId
    requires f in items[i].fills && f in items[j].fills
    ensures items[i].fills[f] == items[j].fills[f]
    decreases j
  {
    hide Summary, FillsFromItems, EverySplitSucceeds, LastFullest;
    var id, a := items[i].orderId, items[i..j];
    assert a[0] == items[i];
    SummaryHas(a, id, 0);
    var _ := SummaryRecord(a, id);
    var fills := Summary(a)[id].fills;
    SourceStated(a, id, fills, 0, f);
    MetFill(items, i, j, f);
    var m := SourceInPart(items, i, j, id, fills, f);
    if m > i {
      StatedAlike(items, i, m, f);
    }
  }

  lemma SourceStated(items: seq<Record>, id: nat, fills: map<nat, Fill>, i: nat, f: nat)
    requires FillsFromItems(items, id, fills) && i < |items| && items[i].orderId == id && f in items[i].fills
    ensures f in fills
  {
  }

  // Every split of the items succeeds exactly if the snapshots agree wherever they meet.
  lemma EverySplitSucceedsIff(items: seq<Record>)
    ensures EverySplitSucceeds(items) <==> AgreeWhenCompared(items)
  {
    hide LastFullest, SameIdentity, OneIdentity, AllPages, Flatten;
    if AgreeWhenCompared(items) {
      forall pages | Flatten(pages) == items ensures AllPages(pages).Ok? {
        SplitSucceeds(items, pages);
      }
    }
    if EverySplitSucceeds(items) {
      IdentityIs();
      forall i: nat, j: nat | Compared(items, i, j) ensures OneIdentity(items[i], items[j]) {
        MetSnapshots(items, i, j);
      }
      forall i, j, f | 0 <= i < j < |items| && items[i].orderId == items[j].orderId && f in items[i].fills && f in items[j].fills
        ensures items[i].fills[f] == items[j].fills[f]
      {
        StatedAlike(items, i, j, f);
      }
    }
  }

  /* ---- When the split does not matter ---- */

  // Some split of the items succeeds, found over the place of its last page.
  predicate Splittable(items: seq<Record>)
    decreases |items|
  {
    items == [] ||
    exists y :: 0 <= y < |items| && Splittable(items[..y]) && PageRecords(items[y..]).Ok? && !AnyConflict(Summary(items[..y]), Summary(items[y..]))
  }

  lemma {:induction false} SplitFound(items: seq<Record>) returns (pages: seq<seq<Record>>)
    requires Splittable(items)
    ensures Flatten(pages) == items && AllPages(pages).Ok?
    decreases |items|
  {
    hide AnyConflict, Join, PageRecords, Summary;
    pages := [];
    if items != [] {
      var y :| 0 <= y < |items| && Splittable(items[..y]) && PageRecords(items[y..]).Ok? && !AnyConflict(Summary(items[..y]), Summary(items[y..]));
      var front := SplitFound(items[..y]);
      pages := front + [items[y..]];
      AddedPage(front, items[y..]);
      SplitValue(front);
      PageIsSummary(items[y..]);
      JoinIsFuse(Summary(items[..y]), Summary(items[y..]));
    }
  }

  lemma {:induction false} SplitIsFound(pages: seq<seq<Record>>)
    requires AllPages(pages).Ok?
    ensures Splittable(Flatten(pages))
    decreases |pages|
  {
    hide AnyConflict, Join, PageRecords, Summary;
    if pages != [] {
      var front, page := DropLast(pages), Last(pages);
      SplitIsFound(front);
      SplitValue(front);
      PageIsSummary(page);
      JoinIsFuse(Summary(Flatten(front)), Summary(page));
      var items, y := Flatten(pages), |Flatten(front)|;
      assert items[..y] == Flatten(front) && items[y..] == page;
      if page == [] {
        assert items == Flatten(front);
      } else {
        assert y < |items|;
      }
    }
  }

  // Every split gives what one page would give.
  ghost predicate SplitNeverMatters(items: seq<Record>) {
    forall pages :: Flatten(pages) == items ==> AllPages(pages) == PageRecords(items)
  }

  // It does exactly if all snapshots that may meet agree, or no split at all succeeds.
  lemma SplitNeverMattersIff(items: seq<Record>)
    ensures SplitNeverMatters(items) <==> if PageRecords(items).Ok? then AgreeWhenCompared(items) else !Splittable(items)
  {
    hide Flatten, AllPages, PageRecords, AgreeWhenCompared, Splittable, Summary;
    PageIsSummary(items);
    if PageRecords(items).Ok? {
      EverySplitSucceedsIff(items);
      forall pages | Flatten(pages) == items ensures AllPages(pages).Ok? ==> AllPages(pages) == PageRecords(items) {
        SplitValue(pages);
      }
    } else {
      if Splittable(items) {
        var pages := SplitFound(items);
        assert AllPages(pages) != PageRecords(items);
      }
      forall pages | Flatten(pages) == items && AllPages(pages) != PageRecords(items) ensures Splittable(items) {
        SplitValue(pages);
        SplitIsFound(pages);
      }
    }
  }

  // Two chains of pages over the same items: fetched records agree, and are fetched if the snapshots agree.
  lemma FetchesAgree(fetch: nat -> Page, first: nat, fetch': nat -> Page, first': nat, maxPages: nat)
    requires Chain(fetch, Some(first), {}, maxPages).Ok? && Chain(fetch', Some(first'), {}, maxPages).Ok?
    requires Flatten(Chain(fetch, Some(first), {}, maxPages).value) == Flatten(Chain(fetch', Some(first'), {}, maxPages).value)
    ensures var a, b := FetchFrom(fetch, Some(first), {}, map[], maxPages), FetchFrom(fetch', Some(first'), {}, map[], maxPages);
            && (a.Ok? && b.Ok? ==> a == b)
            && (AgreeWhenCompared(Flatten(Chain(fetch, Some(first), {}, maxPages).value)) ==> a.Ok? && a == b)
  {
    hide Chain, FetchFrom, AgreeWhenCompared, Flatten, Summary;
    var a, b := Chain(fetch, Some(first), {}, maxPages).value, Chain(fetch', Some(first'), {}, maxPages).value;
    FetchIsPages(fetch, Some(first), {}, [], map[], maxPages);
    FetchIsPages(fetch', Some(first'), {}, [], map[], maxPages);
    assert [] + a == a && [] + b == b;
    SplitValue(a);
    SplitValue(b);
    EverySplitSucceedsIff(Flatten(a));
  }

  /* ---- Pages that do matter ---- */

  function Snapshot(ordered: real, filled: real): Record {
    Record(1, 1, Buy, 1, ordered, filled, 1, map[])
  }

  lemma PageOfThree(a: Record, b: Record, c: Record)
    requires a.orderId == b.orderId == c.orderId
    ensures PageRecords([a, b, c]).Ok? <==> Merge(a, b).Ok? && Merge(Merge(a, b).value, c).Ok?
  {
    hide Merge, Join;
    assert DropLast([a, b, c]) == [a, b];
    PageOfTwoItems(a, b);
    JoinOne(a, b);
    if Merge(a, b).Ok? {
      JoinOne(Merge(a, b).value, c);
    }
  }

  lemma PageOfTwoItems(a: Record, b: Record)
    ensures PageRecords([a]) == Ok(Single(a))
    ensures PageRecords([a, b]) == Join(Single(a), Single(b))
  {
    hide Join;
    assert DropLast([a, b]) == [a] && DropLast([a]) == [];
    JoinNothing(Single(a));
  }

  lemma TwoPages(a: Record, b: Record, c: Record)
    requires a.orderId == b.orderId == c.orderId
    ensures AllPages([[a], [b, c]]).Ok? <==> Merge(b, c).Ok? && Merge(a, Merge(b, c).value).Ok?
    ensures Flatten([[a], [b, c]]) == [a, b, c]
  {
    hide Merge, Join, PageRecords;
    assert DropLast([[a], [b, c]]) == [[a]] && DropLast([[a]]) == [];
    assert Flatten([[a]]) == [a];
    PageOfTwoItems(a, b);
    PageOfTwoItems(b, c);
    JoinNothing(Single(a));
    JoinOne(b, c);
    assert AllPages([[a]]) == Ok(Single(a));
    assert AllPages([[a], [b, c]]) == (var page :- PageRecords([b, c]); Join(Single(a), page));
    if Merge(b, c).Ok? {
      JoinOne(a, Merge(b, c).value);
      assert AllPages([[a], [b, c]]) == Join(Single(a), Single(Merge(b, c).value));
    }
  }

  lemma JoinOne(a: Record, b: Record)
    requires a.orderId == b.orderId
    ensures Join(Single(a), Single(b)).Ok? <==> Merge(a, b).Ok?
    ensures Merge(a, b).Ok? ==> Merge(a, b).value.orderId == a.orderId && Join(Single(a), Single(b)) == Ok(Single(Merge(a, b).value))
  {
    var id := a.orderId;
    assert id in Single(a) && id in Single(b);
    if Merge(a, b).Ok? {
      assert Join(Single(a), Single(b)).value == Single(Merge(a, b).value);
    }
  }

  // Three quantities, each within the tolerance of the next: one page takes them and two pages
  // do not; when the first is filled furthest it is the other way round.
  lemma ToleranceMatters()
    ensures var a, b, c := Snapshot(1.0, 0.0), Snapshot(1.0 + 0.0000000000009, 0.0), Snapshot(1.0 + 0.0000000000018, 0.0);
            && Merge(Merge(a, b).value, c).Ok? && Merge(a, Merge(b, c).value).Err?
            && PageRecords([a, b, c]).Ok? && AllPages([[a], [b, c]]).Err? && Flatten([[a], [b, c]]) == [a, b, c]
    ensures var a, b, c := Snapshot(1.0, 1.0), Snapshot(1.0 + 0.0000000000009, 0.5), Snapshot(1.0 + 0.0000000000018, 0.0);
            PageRecords([a, b, c]).Err? && AllPages([[a], [b, c]]).Ok? && Flatten([[a], [b, c]]) == [a, b, c]
  {
    hide PageRecords, AllPages, Flatten;
    var b, c := 1.0 + 0.0000000000009, 1.0 + 0.0000000000018;
    PageOfThree(Snapshot(1.0, 0.0), Snapshot(b, 0.0), Snapshot(c, 0.0));
    TwoPages(Snapshot(1.0, 0.0), Snapshot(b, 0.0), Snapshot(c, 0.0));
    PageOfThree(Snapshot(1.0, 1.0), Snapshot(b, 0.5), Snapshot(c, 0.0));
    TwoPages(Snapshot(1.0, 1.0), Snapshot(b, 0.5), Snapshot(c, 0.0));
  }
}
