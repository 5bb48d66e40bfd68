// Shared vocabulary: optional values, and results that carry a raised error.
module Common {

  datatype Option<+T> = None | Some(value: T)

  datatype Result<+T, +E> = Ok(value: T) | Err(error: E) {

    predicate IsFailure() {
      Err?
    }

    function PropagateFailure<U>(): Result<U, E>
      requires Err?
    {
      Err(error)
    }

    function Extract(): T
      requires Ok?
    {
      value
    }
  }

  function Last<T>(s: seq<T>): T
    requires |s| > 0
  {
    s[|s| - 1]
  }

  function DropLast<T>(s: seq<T>): seq<T>
    requires |s| > 0
  {
    s[..|s| - 1]
  }

  /* ---- list.sort: a stable insertion sort, for any order ---- */

  function Insert<T>(leq: (T, T) -> bool, s: seq<T>, x: T): seq<T> {
    if s == [] then [x]
    else if leq(Last(s), x) then s + [x]
    else Insert(leq, DropLast(s), x) + [Last(s)]
  }

  function Sort<T>(leq: (T, T) -> bool, s: seq<T>): seq<T> {
    if s == [] then [] else Insert(leq, Sort(leq, DropLast(s)), Last(s))
  }

  ghost predicate SortedBy<T>(leq: (T, T) -> bool, s: seq<T>) {
    forall i, j :: 0 <= i < j < |s| ==> leq(s[i], s[j])
  }

  // Sorting a list that is already in order leaves it alone.
  lemma {:induction false} SortOfSorted<T>(leq: (T, T) -> bool, s: seq<T>)
    requires SortedBy(leq, s)
    ensures Sort(leq, s) == s
  {
    if s != [] {
      SortOfSorted(leq, DropLast(s));
      assert s == DropLast(s) + [Last(s)];
    }
  }

  lemma {:induction false} InsertMembers<T>(leq: (T, T) -> bool, s: seq<T>, x: T, y: T)
    ensures y in Insert(leq, s, x) <==> y in s || y == x
  {
    if s != [] {
      InsertMembers(leq, DropLast(s), x, y);
      assert s == DropLast(s) + [Last(s)];
    }
  }

  lemma {:induction false} SortMembers<T>(leq: (T, T) -> bool, s: seq<T>, y: T)
    ensures y in Sort(leq, s) <==> y in s
  {
    if s != [] {
      SortMembers(leq, DropLast(s), y);
      InsertMembers(leq, Sort(leq, DropLast(s)), Last(s), y);
      assert s == DropLast(s) + [Last(s)];
    }
  }

  lemma {:induction false} InsertMultiset<T>(leq: (T, T) -> bool, s: seq<T>, x: T)
    ensures multiset(Insert(leq, s, x)) == multiset(s) + multiset{x}
  {
    if s != [] {
      InsertMultiset(leq, DropLast(s), x);
      assert s == DropLast(s) + [Last(s)];
    }
  }

  // Sorting drops and repeats nothing.
  lemma {:induction false} SortMultiset<T>(leq: (T, T) -> bool, s: seq<T>)
    ensures multiset(Sort(leq, s)) == multiset(s)
    ensures |Sort(leq, s)| == |s|
  {
    if s != [] {
      SortMultiset(leq, DropLast(s));
      InsertMultiset(leq, Sort(leq, DropLast(s)), Last(s));
      assert s == DropLast(s) + [Last(s)];
    }
    assert |multiset(Sort(leq, s))| == |Sort(leq, s)| && |multiset(s)| == |s|;
  }

  ghost predicate TotalOrder<T(!new)>(leq: (T, T) -> bool) {
    && (forall a, b :: leq(a, b) || leq(b, a))
    && (forall a, b, c :: leq(a, b) && leq(b, c) ==> leq(a, c))
  }

  lemma {:induction false} InsertSorts<T(!new)>(leq: (T, T) -> bool, s: seq<T>, x: T)
    requires TotalOrder(leq) && SortedBy(leq, s)
    ensures SortedBy(leq, Insert(leq, s, x))
  {
    if s != [] {
      if leq(Last(s), x) {
        forall i | 0 <= i < |s| ensures leq(s[i], x) {
          assert i < |s| - 1 ==> leq(s[i], Last(s));
        }
      } else {
        var front := Insert(leq, DropLast(s), x);
        InsertSorts(leq, DropLast(s), x);
        forall i | 0 <= i < |front| ensures leq(front[i], Last(s)) {
          assert front[i] in front;
          InsertMembers(leq, DropLast(s), x, front[i]);
          if front[i] in DropLast(s) {
            var k :| 0 <= k < |s| - 1 && s[k] == front[i];
          }
        }
      }
    }
  }

  // It puts everything in order.
  lemma {:induction false} SortSorts<T(!new)>(leq: (T, T) -> bool, s: seq<T>)
    requires TotalOrder(leq)
    ensures SortedBy(leq, Sort(leq, s))
  {
    if s != [] {
      SortSorts(leq, DropLast(s));
      InsertSorts(leq, Sort(leq, DropLast(s)), Last(s));
    }
  }
}
