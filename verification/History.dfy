// src/sp1execution/broker/history_v04.py: snapshots of orders from a paged history are merged
// per order id.  A record's fills are kept by fill id; the source lists them by date and id.
module History {
  import opened Common

  datatype Side = Buy | Sell

  datatype Fill = Fill(filledAt: nat, price: real, quantity: real, details: nat)

  datatype Record = Record(
    orderId: nat, ticker: nat, side: Side, status: nat, ordered: real, filled: real, createdAt: nat, fills: map<nat, Fill>)

  datatype HistoryError = SchemaConflict | PaginationLoop | TooManyPages | BadLimit

  const IDENTITY_TOLERANCE := 0.000000000001

  function Magnitude(x: real): real {
    if x < 0.0 then -x else x
  }

  // _same_identity: quantities are compared by magnitude, within a tolerance.
  predicate SameIdentity(a: Record, b: Record) {
    && a.orderId == b.orderId && a.ticker == b.ticker && a.side == b.side && a.createdAt == b.createdAt
    && Magnitude(Magnitude(a.ordered) - Magnitude(b.ordered)) <= IDENTITY_TOLERANCE
  }

  predicate FillsConflict(a: map<nat, Fill>, b: map<nat, Fill>) {
    exists id :: id in a && id in b && a[id] != b[id]
  }

  // The later record wins unless the earlier one is filled further.
  function Winner(a: Record, b: Record): Record {
    if Magnitude(a.filled) > Magnitude(b.filled) then a else b
  }

  function Merge(a: Record, b: Record): Result<Record, HistoryError> {
    if !SameIdentity(a, b) || FillsConflict(a.fills, b.fills) then Err(SchemaConflict)
    else Ok(Winner(a, b).(fills := a.fills + b.fills))
  }

  type Records = map<nat, Record>

  predicate AnyConflict(a: Records, b: Records) {
    exists id :: id in a && id in b && Merge(a[id], b[id]).Err?
  }

  function Joined(a: Records, b: Records, id: nat): Record
    requires id in a || id in b
  {
    if id in a && id in b then
      if Merge(a[id], b[id]).Ok? then Merge(a[id], b[id]).value else a[id]
    else if id in a then a[id]
    else b[id]
  }

  // One dictionary of records merged into another.
  function Join(a: Records, b: Records): Result<Records, HistoryError> {
    if AnyConflict(a, b) then Err(SchemaConflict)
    else Ok(map id | id in a.Keys + b.Keys :: Joined(a, b, id))
  }

  // parse_history_page on the parsed items.
  function PageRecords(items: seq<Record>): Result<Records, HistoryError> {
    if items == [] then Ok(map[])
    else
      var before :- PageRecords(DropLast(items));
      Join(before, map[Last(items).orderId := Last(items)])
  }

  /* ---- Merging is associative ---- */

  // Ordered magnitudes are either equal or further apart than the tolerance.
  ghost predicate Apart(magnitudes: set<real>) {
    forall x, y :: x in magnitudes && y in magnitudes && Magnitude(x - y) <= IDENTITY_TOLERANCE ==> x == y
  }

  ghost predicate Within(r: Record, magnitudes: set<real>) {
    Magnitude(r.ordered) in magnitudes
  }

  lemma MergeWithin(a: Record, b: Record, magnitudes: set<real>)
    requires Within(a, magnitudes) && Within(b, magnitudes) && Merge(a, b).Ok?
    ensures Within(Merge(a, b).value, magnitudes) && Merge(a, b).value.orderId == a.orderId
  {
  }

  // Identities that agree exactly do so transitively.
  lemma IdentityTransfers(a: Record, b: Record, c: Record, magnitudes: set<real>)
    requires Apart(magnitudes) && Within(a, magnitudes) && Within(b, magnitudes) && Within(c, magnitudes)
    requires SameIdentity(a, b)
    ensures SameIdentity(b, c) <==> SameIdentity(a, c)
  {
    assert Magnitude(a.ordered) == Magnitude(b.ordered);
  }

  lemma ConflictSplits(a: map<nat, Fill>, b: map<nat, Fill>, c: map<nat, Fill>)
    requires !FillsConflict(a, b)
    ensures FillsConflict(a + b, c) <==> FillsConflict(a, c) || FillsConflict(b, c)
    ensures FillsConflict(c, a + b) <==> FillsConflict(c, a) || FillsConflict(c, b)
  {
    if FillsConflict(a, c) {
      var id :| id in a && id in c && a[id] != c[id];
      assert id in a + b && (a + b)[id] == a[id];
    }
    if FillsConflict(b, c) {
      var id :| id in b && id in c && b[id] != c[id];
      assert id in a + b && (a + b)[id] == b[id];
    }
  }

  // Three snapshots, merged either way round: the same record, or failure both ways.
  lemma MergeAssociates(a: Record, b: Record, c: Record, magnitudes: set<real>)
    requires Apart(magnitudes) && Within(a, magnitudes) && Within(b, magnitudes) && Within(c, magnitudes)
    ensures Merge(a, b).Ok? && Merge(b, c).Ok? ==> Merge(Merge(a, b).value, c) == Merge(a, Merge(b, c).value)
    ensures Merge(a, b).Ok? && Merge(b, c).Err? ==> Merge(Merge(a, b).value, c).Err?
    ensures Merge(a, b).Err? && Merge(b, c).Ok? ==> Merge(a, Merge(b, c).value).Err?
  {
    hide FillsConflict, SameIdentity;
    if Merge(a, b).Ok? {
      var ab := Merge(a, b).value;
      MergeWithin(a, b, magnitudes);
      SameAs(ab, a, b);
      ConflictSplits(a.fills, b.fills, c.fills);
      IdentityTransfers(a, b, c, magnitudes);
      IdentityOfWinner(a, b, c);
    }
    if Merge(b, c).Ok? {
      var bc := Merge(b, c).value;
      MergeWithin(b, c, magnitudes);
      SameAs(bc, b, c);
      ConflictSplits(b.fills, c.fills, a.fills);
      ConflictSymmetric(a.fills, b.fills);
      IdentitySymmetric(a, b);
      IdentitySymmetric(a, c);
      IdentityTransfers(b, c, a, magnitudes);
      IdentityOfWinner(b, c, a);
      IdentitySymmetric(a, bc);
    }
    if Merge(a, b).Ok? && Merge(b, c).Ok? {
      assert (a.fills + b.fills) + c.fills == a.fills + (b.fills + c.fills);
    }
  }

  lemma SameAs(w: Record, a: Record, b: Record)
    requires SameIdentity(a, b) && w == Winner(a, b).(fills := w.fills)
    ensures w.orderId == a.orderId
  {
  }

  lemma IdentitySymmetric(a: Record, b: Record)
    ensures SameIdentity(a, b) <==> SameIdentity(b, a)
  {
  }

  lemma ConflictSymmetric(a: map<nat, Fill>, b: map<nat, Fill>)
    ensures FillsConflict(a, b) <==> FillsConflict(b, a)
  {
  }

  lemma IdentityOfWinner(a: Record, b: Record, c: Record)
    ensures var w := Merge(a, b);
            w.Ok? ==> (SameIdentity(w.value, c) <==> SameIdentity(Winner(a, b), c))
  {
  }

  ghost predicate RecordsOk(a: Records, magnitudes: set<real>) {
    forall id :: id in a ==> a[id].orderId == id && Within(a[id], magnitudes)
  }

  lemma JoinOk(a: Records, b: Records, magnitudes: set<real>)
    requires RecordsOk(a, magnitudes) && RecordsOk(b, magnitudes) && Join(a, b).Ok?
    ensures RecordsOk(Join(a, b).value, magnitudes)
  {
    var j := Join(a, b).value;
    forall id | id in j ensures j[id].orderId == id && Within(j[id], magnitudes) {
      if id in a && id in b {
        assert Merge(a[id], b[id]).Ok?;
        MergeWithin(a[id], b[id], magnitudes);
      }
    }
  }

  // Joining dictionaries is associative, failures included.
  lemma JoinAssociates(a: Records, b: Records, c: Records, magnitudes: set<real>)
    requires Apart(magnitudes) && RecordsOk(a, magnitudes) && RecordsOk(b, magnitudes) && RecordsOk(c, magnitudes)
    ensures Join(a, b).Ok? && Join(b, c).Ok? ==> Join(Join(a, b).value, c) == Join(a, Join(b, c).value)
    ensures Join(a, b).Ok? && Join(b, c).Err? ==> Join(Join(a, b).value, c).Err?
    ensures Join(a, b).Err? && Join(b, c).Ok? ==> Join(a, Join(b, c).value).Err?
  {
    hide Join;
    if Join(a, b).Ok? && Join(b, c).Ok? {
      AllAssociate(a, b, c, magnitudes);
      BothWays(a, b, c);
    } else if Join(a, b).Ok? {
      FailsRight(a, b, c, magnitudes);
    } else if Join(b, c).Ok? {
      FailsLeft(a, b, c, magnitudes);
    }
  }

  lemma FailsRight(a: Records, b: Records, c: Records, magnitudes: set<real>)
    requires Apart(magnitudes) && RecordsOk(a, magnitudes) && RecordsOk(b, magnitudes) && RecordsOk(c, magnitudes)
    requires Join(a, b).Ok? && Join(b, c).Err?
    ensures Join(Join(a, b).value, c).Err?
  {
    hide Merge;
    var id :| id in b && id in c && Merge(b[id], c[id]).Err?;
    if id in a {
      assert Merge(a[id], b[id]).Ok?;
      MergeAssociates(a[id], b[id], c[id], magnitudes);
    }
    assert id in Join(a, b).value && Merge(Join(a, b).value[id], c[id]).Err?;
  }

  lemma FailsLeft(a: Records, b: Records, c: Records, magnitudes: set<real>)
    requires Apart(magnitudes) && RecordsOk(a, magnitudes) && RecordsOk(b, magnitudes) && RecordsOk(c, magnitudes)
    requires Join(a, b).Err? && Join(b, c).Ok?
    ensures Join(a, Join(b, c).value).Err?
  {
    hide Merge;
    var id :| id in a && id in b && Merge(a[id], b[id]).Err?;
    if id in c {
      assert Merge(b[id], c[id]).Ok?;
      MergeAssociates(a[id], b[id], c[id], magnitudes);
    }
    assert id in Join(b, c).value && Merge(a[id], Join(b, c).value[id]).Err?;
  }

  lemma AllAssociate(a: Records, b: Records, c: Records, magnitudes: set<real>)
    requires Apart(magnitudes) && RecordsOk(a, magnitudes) && RecordsOk(b, magnitudes) && RecordsOk(c, magnitudes)
    ensures Associates(a, b, c)
  {
    hide Merge;
    forall id | id in a && id in b && id in c && Merge(a[id], b[id]).Ok? && Merge(b[id], c[id]).Ok?
      ensures Merge(Merge(a[id], b[id]).value, c[id]) == Merge(a[id], Merge(b[id], c[id]).value)
    {
      MergeAssociates(a[id], b[id], c[id], magnitudes);
    }
  }

  // Merging three records of one id, either way round.
  ghost predicate Associates(a: Records, b: Records, c: Records) {
    forall id :: id in a && id in b && id in c && Merge(a[id], b[id]).Ok? && Merge(b[id], c[id]).Ok? ==>
      Merge(Merge(a[id], b[id]).value, c[id]) == Merge(a[id], Merge(b[id], c[id]).value)
  }

  lemma ConflictMoves(a: Records, b: Records, c: Records)
    requires Join(a, b).Ok? && Join(b, c).Ok? && Associates(a, b, c)
    ensures AnyConflict(Join(a, b).value, c) <==> AnyConflict(a, Join(b, c).value)
  {
    hide Merge;
    var ab, bc := Join(a, b).value, Join(b, c).value;
    forall id | id in a && id in b ensures Merge(a[id], b[id]).Ok? {
    }
    forall id | id in b && id in c ensures Merge(b[id], c[id]).Ok? {
    }
    if AnyConflict(ab, c) {
      var id :| id in ab && id in c && Merge(ab[id], c[id]).Err?;
      assert id in a && id in bc && Merge(a[id], bc[id]).Err?;
    }
    if AnyConflict(a, bc) {
      var id :| id in a && id in bc && Merge(a[id], bc[id]).Err?;
      assert id in ab && id in c && Merge(ab[id], c[id]).Err?;
    }
  }

  lemma BothWays(a: Records, b: Records, c: Records)
    requires Join(a, b).Ok? && Join(b, c).Ok? && Associates(a, b, c)
    ensures Join(Join(a, b).value, c) == Join(a, Join(b, c).value)
  {
    hide Merge;
    ConflictMoves(a, b, c);
    var ab, bc := Join(a, b).value, Join(b, c).value;
    forall id | id in a && id in b ensures Merge(a[id], b[id]).Ok? {
    }
    forall id | id in b && id in c ensures Merge(b[id], c[id]).Ok? {
    }
    if !AnyConflict(ab, c) {
      var l, r := Join(ab, c).value, Join(a, bc).value;
      assert l.Keys == r.Keys;
      forall id | id in l ensures l[id] == r[id] {
        assert id in ab && id in c ==> Merge(ab[id], c[id]).Ok?;
        assert id in a && id in bc ==> Merge(a[id], bc[id]).Ok?;
      }
      assert l == r;
    }
  }

  lemma JoinError(a: Records, b: Records)
    ensures Join(a, b).Err? ==> Join(a, b).error == SchemaConflict
  {
  }

  /* ---- Splitting into pages ---- */

  // The records of several pages, joined in order.
  function AllPages(pages: seq<seq<Record>>): Result<Records, HistoryError> {
    if pages == [] then Ok(map[])
    else
      var before :- AllPages(DropLast(pages));
      var page :- PageRecords(Last(pages));
      Join(before, page)
  }

  function Flatten(pages: seq<seq<Record>>): seq<Record> {
    if pages == [] then [] else Flatten(DropLast(pages)) + Last(pages)
  }

  ghost predicate ItemsOk(items: seq<Record>, magnitudes: set<real>) {
    forall i :: 0 <= i < |items| ==> Within(items[i], magnitudes)
  }

  lemma {:induction false} PageRecordsOk(items: seq<Record>, magnitudes: set<real>)
    requires ItemsOk(items, magnitudes) && PageRecords(items).Ok?
    ensures RecordsOk(PageRecords(items).value, magnitudes)
  {
    if items != [] {
      PageRecordsOk(DropLast(items), magnitudes);
      JoinOk(PageRecords(DropLast(items)).value, map[Last(items).orderId := Last(items)], magnitudes);
    }
  }

  lemma JoinNothing(a: Records)
    ensures Join(a, map[]) == Ok(a) && Join(map[], a) == Ok(a)
  {
    var none: Records := map[];
    assert (map id | id in a.Keys + none.Keys :: Joined(a, none, id)) == a;
    assert (map id | id in none.Keys + a.Keys :: Joined(none, a, id)) == a;
  }

  // A list of items followed by more of them.
  lemma {:induction false} PageOfTwo(a: seq<Record>, b: seq<Record>, magnitudes: set<real>)
    requires Apart(magnitudes) && ItemsOk(a, magnitudes) && ItemsOk(b, magnitudes)
    ensures PageRecords(a).Ok? && PageRecords(b).Ok? ==> PageRecords(a + b) == Join(PageRecords(a).value, PageRecords(b).value)
    ensures PageRecords(a).Err? || PageRecords(b).Err? ==> PageRecords(a + b).Err?
  {
    hide Join, RecordsOk;
    if b == [] {
      assert a + b == a;
      if PageRecords(a).Ok? {
        JoinNothing(PageRecords(a).value);
      }
    } else {
      var front, item := DropLast(b), Last(b);
      var single: Records := map[item.orderId := item];
      assert DropLast(a + b) == a + front;
      PageOfTwo(a, front, magnitudes);
      SingleOk(item, magnitudes);
      if PageRecords(a).Ok? && PageRecords(front).Ok? {
        PageRecordsOk(a, magnitudes);
        PageRecordsOk(front, magnitudes);
        JoinAssociates(PageRecords(a).value, PageRecords(front).value, single, magnitudes);
        JoinError(PageRecords(a).value, PageRecords(front).value);
        if PageRecords(b).Ok? {
          JoinError(PageRecords(a).value, PageRecords(b).value);
        }
      }
    }
  }

  lemma SingleOk(item: Record, magnitudes: set<real>)
    requires Within(item, magnitudes)
    ensures RecordsOk(map[item.orderId := item], magnitudes)
  {
  }

  // Any split of the items into pages gives the same records as one page, or fails like it.
  lemma {:induction false} SplitInvariance(pages: seq<seq<Record>>, magnitudes: set<real>)
    requires Apart(magnitudes) && ItemsOk(Flatten(pages), magnitudes)
    ensures AllPages(pages).Ok? <==> PageRecords(Flatten(pages)).Ok?
    ensures AllPages(pages).Ok? ==> AllPages(pages) == PageRecords(Flatten(pages))
  {
    hide Join;
    if pages != [] {
      var front, last := DropLast(pages), Last(pages);
      var items := Flatten(front);
      assert forall i :: 0 <= i < |items| ==> items[i] == Flatten(pages)[i];
      assert forall i :: 0 <= i < |last| ==> last[i] == Flatten(pages)[|items| + i];
      SplitInvariance(front, magnitudes);
      PageOfTwo(items, last, magnitudes);
    }
  }

  /* ---- What the merged record is ---- */

  // Item w is the last one of the order with the largest filled magnitude.
  ghost predicate LastFullest(items: seq<Record>, orderId: nat, w: nat) {
    && w < |items| && items[w].orderId == orderId
    && forall i :: 0 <= i < |items| && items[i].orderId == orderId ==>
         Magnitude(items[i].filled) <= Magnitude(items[w].filled)
         && (i > w ==> Magnitude(items[i].filled) < Magnitude(items[w].filled))
  }

  // The fills are those of all items of the order.
  ghost predicate UnionOfFills(items: seq<Record>, orderId: nat, fills: map<nat, Fill>) {
    && (forall i, f :: 0 <= i < |items| && items[i].orderId == orderId && f in items[i].fills ==>
          f in fills && fills[f] == items[i].fills[f])
    && (forall f :: f in fills ==> exists i :: 0 <= i < |items| && items[i].orderId == orderId && f in items[i].fills)
  }

  // The merged record of an order: its last fullest snapshot, with every fill seen.
  lemma {:induction false} MergedRecord(items: seq<Record>, orderId: nat) returns (w: nat)
    requires PageRecords(items).Ok?
    ensures orderId in PageRecords(items).value <==> exists i :: 0 <= i < |items| && items[i].orderId == orderId
    ensures orderId in PageRecords(items).value ==>
              var r := PageRecords(items).value[orderId];
              LastFullest(items, orderId, w) && r == items[w].(fills := r.fills) && UnionOfFills(items, orderId, r.fills)
  {
    hide FillsConflict, SameIdentity, UnionOfFills, LastFullest;
    w := 0;
    if items != [] {
      var front, item := DropLast(items), Last(items);
      assert items == front + [item];
      w := MergedRecord(front, orderId);
      var before := PageRecords(front).value;
      var after := PageRecords(items).value;
      if item.orderId == orderId {
        assert items[|front|] == item;
        if orderId in before {
          assert Merge(before[orderId], item).Ok? && after[orderId] == Merge(before[orderId], item).value;
          MergedItem(front, item, before[orderId], w);
          w := if Magnitude(before[orderId].filled) > Magnitude(item.filled) then w else |front|;
        } else {
          FirstItem(front, item);
          w := |front|;
        }
      } else {
        assert orderId in before <==> orderId in after;
        OtherItem(front, item, orderId);
        if orderId in before {
          assert after[orderId] == before[orderId];
          OtherItemKeeps(front, item, orderId, before[orderId].fills, w);
        }
      }
    }
  }

  lemma OtherItem(front: seq<Record>, item: Record, orderId: nat)
    requires item.orderId != orderId
    ensures (exists i :: 0 <= i < |front + [item]| && (front + [item])[i].orderId == orderId) <==>
            (exists i :: 0 <= i < |front| && front[i].orderId == orderId)
  {
    if i :| 0 <= i < |front| && front[i].orderId == orderId {
      assert (front + [item])[i] == front[i];
    }
  }

  lemma OtherItemKeeps(front: seq<Record>, item: Record, orderId: nat, fills: map<nat, Fill>, w: nat)
    requires item.orderId != orderId && LastFullest(front, orderId, w) && UnionOfFills(front, orderId, fills)
    ensures LastFullest(front + [item], orderId, w) && UnionOfFills(front + [item], orderId, fills)
    ensures (front + [item])[w] == front[w]
  {
    FillsFrom(front, item, orderId, fills);
  }

  lemma FillsFrom(front: seq<Record>, item: Record, orderId: nat, fills: map<nat, Fill>)
    requires forall f :: f in fills ==> exists i :: 0 <= i < |front| && front[i].orderId == orderId && f in front[i].fills
    ensures forall f :: f in fills ==>
              exists i :: 0 <= i < |front + [item]| && (front + [item])[i].orderId == orderId && f in (front + [item])[i].fills
  {
    forall f | f in fills
      ensures exists i :: 0 <= i < |front + [item]| && (front + [item])[i].orderId == orderId && f in (front + [item])[i].fills
    {
      var i :| 0 <= i < |front| && front[i].orderId == orderId && f in front[i].fills;
      assert (front + [item])[i] == front[i];
    }
  }

  lemma FirstItem(front: seq<Record>, item: Record)
    requires forall i :: 0 <= i < |front| ==> front[i].orderId != item.orderId
    ensures LastFullest(front + [item], item.orderId, |front|) && UnionOfFills(front + [item], item.orderId, item.fills)
    ensures (front + [item])[|front|] == item
  {
    assert (front + [item])[|front|] == item;
  }

  lemma MergedItem(front: seq<Record>, item: Record, kept: Record, w: nat)
    requires LastFullest(front, item.orderId, w) && kept == front[w].(fills := kept.fills)
    requires UnionOfFills(front, item.orderId, kept.fills) && Merge(kept, item).Ok?
    ensures var r, items := Merge(kept, item).value, front + [item];
            var v := if Magnitude(kept.filled) > Magnitude(item.filled) then w else |front|;
            LastFullest(items, item.orderId, v) && r == items[v].(fills := r.fills) && UnionOfFills(items, item.orderId, r.fills)
  {
    hide LastFullest, UnionOfFills;
    NextFullest(front, item, kept, w);
    NextFills(front, item, kept);
  }

  lemma NextFullest(front: seq<Record>, item: Record, kept: Record, w: nat)
    requires LastFullest(front, item.orderId, w) && kept == front[w].(fills := kept.fills)
    ensures var v := if Magnitude(kept.filled) > Magnitude(item.filled) then w else |front|;
            && LastFullest(front + [item], item.orderId, v)
            && Winner(kept, item).(fills := map[]) == (front + [item])[v].(fills := map[])
  {
    hide Magnitude;
    var items := front + [item];
    assert items[|front|] == item && items[w] == front[w];
    assert forall i :: 0 <= i < |front| ==> items[i] == front[i];
    Ordered(kept.filled, item.filled);
  }

  lemma Ordered(x: real, y: real)
    ensures Magnitude(x) > Magnitude(y) || Magnitude(x) <= Magnitude(y)
  {
  }

  lemma NextFills(front: seq<Record>, item: Record, kept: Record)
    requires UnionOfFills(front, item.orderId, kept.fills) && Merge(kept, item).Ok?
    ensures UnionOfFills(front + [item], item.orderId, Merge(kept, item).value.fills)
  {
    hide SameIdentity, Winner;
    var fills, items := kept.fills + item.fills, front + [item];
    assert items[|front|] == item;
    FillsFrom(front, item, item.orderId, kept.fills);
    assert !FillsConflict(kept.fills, item.fills);
    forall i, f | 0 <= i < |items| && items[i].orderId == item.orderId && f in items[i].fills
      ensures f in fills && fills[f] == items[i].fills[f]
    {
      if i < |front| {
        assert items[i] == front[i] && f in kept.fills && kept.fills[f] == front[i].fills[f];
      }
    }
  }

  /* ---- The fetch loop ---- */

  datatype Page = Page(items: seq<Record>, next: Option<nat>)

  // The pages a chain of paths visits, or why it stops.
  function Chain(fetch: nat -> Page, path: Option<nat>, visited: set<nat>, limit: nat): Result<seq<seq<Record>>, HistoryError>
    decreases limit
  {
    match path
    case None => Ok([])
    case Some(p) =>
      if p in visited then Err(PaginationLoop)
      else if limit == 0 then Err(TooManyPages)
      else
        var page := fetch(p);
        var rest :- Chain(fetch, page.next, visited + {p}, limit - 1);
        Ok([page.items] + rest)
  }

  method ParseHistoryPage(items: seq<Record>) returns (r: Result<Records, HistoryError>)
    ensures r == PageRecords(items)
  {
    hide Join;
    var records: Records := map[];
    for i := 0 to |items|
      invariant PageRecords(items[..i]) == Ok(records)
    {
      assert DropLast(items[..i + 1]) == items[..i];
      var joined := Join(records, map[items[i].orderId := items[i]]);
      if joined.Err? {
        PageErrorStays(items, i + 1, |items|);
        assert items[..|items|] == items;
        return joined;
      }
      records := joined.value;
    }
    assert items[..|items|] == items;
    return Ok(records);
  }

  lemma {:induction false} PageErrorStays(items: seq<Record>, i: nat, j: nat)
    requires i <= j <= |items| && PageRecords(items[..i]).Err?
    ensures PageRecords(items[..j]) == PageRecords(items[..i])
    decreases j
  {
    if i < j {
      PageErrorStays(items, i, j - 1);
      assert DropLast(items[..j]) == items[..j - 1];
    }
  }

  // The rest of the fetch loop, from these records on.
  function FetchFrom(fetch: nat -> Page, path: Option<nat>, visited: set<nat>, out: Records, limit: nat): Result<Records, HistoryError>
    decreases limit
  {
    match path
    case None => Ok(out)
    case Some(p) =>
      if p in visited then Err(PaginationLoop)
      else if limit == 0 then Err(TooManyPages)
      else
        var page := fetch(p);
        var records :- PageRecords(page.items);
        var joined :- Join(out, records);
        FetchFrom(fetch, page.next, visited + {p}, joined, limit - 1)
  }

  // fetch_history_records terminates: every round visits a new path.
  method FetchHistoryRecords(fetch: nat -> Page, first: nat, maxPages: nat) returns (r: Result<Records, HistoryError>)
    ensures r == if maxPages == 0 then Err(BadLimit) else FetchFrom(fetch, Some(first), {}, map[], maxPages)
  {
    hide Join, PageRecords;
    if maxPages == 0 {
      return Err(BadLimit);
    }
    var path: Option<nat>, visited: set<nat>, pages := Some(first), {}, 0;
    var out: Records := map[];
    while path.Some?
      invariant pages <= maxPages
      invariant FetchFrom(fetch, Some(first), {}, map[], maxPages) == FetchFrom(fetch, path, visited, out, maxPages - pages)
      decreases maxPages - pages, path.Some?
    {
      if path.value in visited {
        return Err(PaginationLoop);
      }
      if pages >= maxPages {
        return Err(TooManyPages);
      }
      var page := fetch(path.value);
      visited := visited + {path.value};
      var records := ParseHistoryPage(page.items);
      if records.Err? {
        return records;
      }
      var joined := Join(out, records.value);
      if joined.Err? {
        return joined;
      }
      out := joined.value;
      path := page.next;
      pages := pages + 1;
    }
    return Ok(out);
  }

  // A chain of pages within the limit gives the records of the pages; any other fails.
  lemma {:induction false} FetchIsPages(
    fetch: nat -> Page, path: Option<nat>, visited: set<nat>, seen: seq<seq<Record>>, out: Records, limit: nat)
    requires AllPages(seen) == Ok(out)
    ensures Chain(fetch, path, visited, limit).Ok? ==>
              FetchFrom(fetch, path, visited, out, limit) == AllPages(seen + Chain(fetch, path, visited, limit).value)
    ensures Chain(fetch, path, visited, limit).Err? ==>
              var r := FetchFrom(fetch, path, visited, out, limit);
              r.Err? && (r.error == Chain(fetch, path, visited, limit).error || r.error == SchemaConflict)
    decreases limit
  {
    hide Join, PageRecords;
    if path.None? {
      assert seen + [] == seen;
    } else if path.value !in visited && limit > 0 {
      var page := fetch(path.value);
      var next := visited + {path.value};
      var head := seen + [page.items];
      assert DropLast(head) == seen;
      if Chain(fetch, page.next, next, limit - 1).Ok? {
        var rest := Chain(fetch, page.next, next, limit - 1).value;
        assert seen + ([page.items] + rest) == head + rest;
        if AllPages(head).Err? {
          PagesFail(seen, page.items, rest);
        }
      }
      PageError(page.items);
      if PageRecords(page.items).Ok? {
        JoinError(out, PageRecords(page.items).value);
      }
      if AllPages(head).Ok? {
        FetchIsPages(fetch, page.next, next, head, AllPages(head).value, limit - 1);
      }
    }
  }

  // The paths a fetch follows: from the first one, each named by the page before it, none twice.
  ghost predicate Walk(fetch: nat -> Page, first: nat, paths: seq<nat>) {
    && paths != [] && paths[0] == first
    && (forall k :: 0 <= k < |paths| - 1 ==> fetch(paths[k]).next == Some(paths[k + 1]))
    && (forall j, k :: 0 <= j < k < |paths| ==> paths[j] != paths[k])
  }

  function PagesAt(fetch: nat -> Page, paths: seq<nat>): seq<seq<Record>> {
    seq(|paths|, k requires 0 <= k < |paths| => fetch(paths[k]).items)
  }

  // Where a chain ends: after a page that names no other within the limit, at a path it has been
  // to, or at a new path beyond the limit.
  ghost predicate Ends(fetch: nat -> Page, paths: seq<nat>, limit: nat, r: Result<seq<seq<Record>>, HistoryError>)
    requires paths != []
  {
    var next := fetch(Last(paths)).next;
    && |paths| <= limit
    && match next
       case None => r == Ok(PagesAt(fetch, paths))
       case Some(p) => if p in paths then r == Err(PaginationLoop) else |paths| == limit && r == Err(TooManyPages)
  }

  function PathsOf(paths: seq<nat>): set<nat> {
    set p | p in paths
  }

  // The pages seen so far, in front of those of the rest.
  ghost function InFront(seen: seq<seq<Record>>, rest: Result<seq<seq<Record>>, HistoryError>): Result<seq<seq<Record>>, HistoryError> {
    if rest.Ok? then Ok(seen + rest.value) else rest
  }

  lemma InFrontTwice(seen: seq<seq<Record>>, page: seq<Record>, rest: Result<seq<seq<Record>>, HistoryError>)
    ensures InFront(seen + [page], rest) == InFront(seen, InFront([page], rest))
  {
    if rest.Ok? {
      assert (seen + [page]) + rest.value == seen + ([page] + rest.value);
    }
  }

  lemma ChainStep(fetch: nat -> Page, p: nat, visited: set<nat>, limit: nat)
    ensures Chain(fetch, Some(p), visited, limit) ==
            if p in visited then Err(PaginationLoop)
            else if limit == 0 then Err(TooManyPages)
            else InFront([fetch(p).items], Chain(fetch, fetch(p).next, visited + {p}, limit - 1))
  {
  }

  lemma {:induction false} ChainGoesOn(fetch: nat -> Page, first: nat, before: seq<nat>, limit: nat) returns (paths: seq<nat>)
    requires Walk(fetch, first, before) && |before| <= limit
    ensures Walk(fetch, first, paths)
    ensures Ends(fetch, paths, limit,
                 InFront(PagesAt(fetch, before), Chain(fetch, fetch(Last(before)).next, PathsOf(before), limit - |before|)))
    decreases limit - |before|
  {
    hide Chain, InFront;
    paths := before;
    match fetch(Last(before)).next
    case None => ChainEnds(fetch, before, limit);
    case Some(p) =>
      ChainStep(fetch, p, PathsOf(before), limit - |before|);
      if p !in before && |before| < limit {
        var more := before + [p];
        assert PathsOf(before) + {p} == PathsOf(more);
        assert PagesAt(fetch, more) == PagesAt(fetch, before) + [fetch(p).items];
        paths := ChainGoesOn(fetch, first, more, limit);
        InFrontTwice(PagesAt(fetch, before), fetch(p).items, Chain(fetch, fetch(p).next, PathsOf(more), limit - |more|));
        assert limit - |before| - 1 == limit - |more|;
      } else {
        ErrorStays(PagesAt(fetch, before), if p in before then PaginationLoop else TooManyPages);
      }
  }

  lemma ErrorStays(seen: seq<seq<Record>>, error: HistoryError)
    ensures InFront(seen, Err(error)) == Err(error)
  {
  }

  lemma ChainEnds(fetch: nat -> Page, before: seq<nat>, limit: nat)
    requires before != [] && |before| <= limit
    ensures InFront(PagesAt(fetch, before), Chain(fetch, None, PathsOf(before), limit - |before|)) == Ok(PagesAt(fetch, before))
  {
    assert PagesAt(fetch, before) + [] == PagesAt(fetch, before);
  }

  // What a chain is: the pages of a walk of the paths, or why the walk stops.
  lemma ChainWalks(fetch: nat -> Page, first: nat, limit: nat) returns (paths: seq<nat>)
    requires limit > 0
    ensures Walk(fetch, first, paths) && Ends(fetch, paths, limit, Chain(fetch, Some(first), {}, limit))
  {
    hide Chain;
    ChainStep(fetch, first, {}, limit);
    assert {} + {first} == PathsOf([first]);
    assert PagesAt(fetch, [first]) == [fetch(first).items];
    paths := ChainGoesOn(fetch, first, [first], limit);
  }

  lemma {:induction false} PageError(items: seq<Record>)
    ensures PageRecords(items).Err? ==> PageRecords(items).error == SchemaConflict
  {
    hide Join;
    if items != [] {
      PageError(DropLast(items));
      if PageRecords(DropLast(items)).Ok? {
        JoinError(PageRecords(DropLast(items)).value, map[Last(items).orderId := Last(items)]);
      }
    }
  }

  lemma {:induction false} PagesFail(seen: seq<seq<Record>>, page: seq<Record>, rest: seq<seq<Record>>)
    requires AllPages(seen + [page]).Err?
    ensures AllPages((seen + [page]) + rest) == AllPages(seen + [page])
    decreases |rest|
  {
    var head := seen + [page];
    if rest == [] {
      assert head + rest == head;
    } else {
      PagesFail(seen, page, DropLast(rest));
      assert DropLast(head + rest) == head + DropLast(rest);
    }
  }

  // So two chains that split the same items differently fetch the same records.
  lemma SameItemsSameRecords(
    fetch: nat -> Page, first: nat, fetch': nat -> Page, first': nat, maxPages: nat, magnitudes: set<real>)
    requires Chain(fetch, Some(first), {}, maxPages).Ok? && Chain(fetch', Some(first'), {}, maxPages).Ok?
    requires Flatten(Chain(fetch, Some(first), {}, maxPages).value) == Flatten(Chain(fetch', Some(first'), {}, maxPages).value)
    requires Apart(magnitudes) && ItemsOk(Flatten(Chain(fetch, Some(first), {}, maxPages).value), magnitudes)
    ensures var a, b := FetchFrom(fetch, Some(first), {}, map[], maxPages), FetchFrom(fetch', Some(first'), {}, map[], maxPages);
            (a.Ok? <==> b.Ok?) && (a.Ok? ==> a == b)
  {
    hide Chain, FetchFrom;
    var a, b := Chain(fetch, Some(first), {}, maxPages).value, Chain(fetch', Some(first'), {}, maxPages).value;
    FetchIsPages(fetch, Some(first), {}, [], map[], maxPages);
    FetchIsPages(fetch', Some(first'), {}, [], map[], maxPages);
    assert [] + a == a && [] + b == b;
    SplitInvariance(a, magnitudes);
    SplitInvariance(b, magnitudes);
  }
}
