/** Insertion sort by a strict order. A sorted list without ties is determined by its members, so
    the result does not depend on the input's order or on the sorting algorithm. */
module Sorting {

  ghost predicate StrictOrder<T(!new)>(less: (T, T) -> bool) {
    && (forall x :: !less(x, x))
    && (forall x, y, z :: less(x, y) && less(y, z) ==> less(x, z))
  }

  ghost predicate Ordered<T>(rows: seq<T>, less: (T, T) -> bool) {
    forall i, j | 0 <= i < j < |rows| :: less(rows[i], rows[j])
  }

  /** No two rows tie. */
  ghost predicate NoTies<T>(rows: seq<T>, less: (T, T) -> bool) {
    forall i, j | 0 <= i < j < |rows| :: less(rows[i], rows[j]) || less(rows[j], rows[i])
  }

  function Insert<T>(sorted: seq<T>, x: T, less: (T, T) -> bool): seq<T> {
    if sorted == [] || less(x, sorted[0]) then [x] + sorted
    else [sorted[0]] + Insert(sorted[1..], x, less)
  }

  function Sort<T>(rows: seq<T>, less: (T, T) -> bool): seq<T> {
    if rows == [] then [] else Insert(Sort(rows[1..], less), rows[0], less)
  }

  lemma {:induction false} InsertOrdered<T(!new)>(sorted: seq<T>, x: T, less: (T, T) -> bool)
    requires StrictOrder(less) && Ordered(sorted, less)
    requires forall i | 0 <= i < |sorted| :: less(x, sorted[i]) || less(sorted[i], x)
    ensures Ordered(Insert(sorted, x, less), less)
    ensures forall y :: y in Insert(sorted, x, less) <==> y in sorted || y == x
    ensures |Insert(sorted, x, less)| == |sorted| + 1
  {
    if sorted != [] && !less(x, sorted[0]) {
      InsertOrdered(sorted[1..], x, less);
      var rest := Insert(sorted[1..], x, less);
      assert sorted == [sorted[0]] + sorted[1..];
      forall j | 0 <= j < |rest| ensures less(sorted[0], rest[j]) {
        assert rest[j] in rest;
      }
    } else if sorted != [] {
      forall j | 0 <= j < |sorted| ensures less(x, sorted[j]) {
        assert j > 0 ==> less(sorted[0], sorted[j]);
      }
    }
  }

  lemma {:induction false} SortOrdered<T(!new)>(rows: seq<T>, less: (T, T) -> bool)
    requires StrictOrder(less) && NoTies(rows, less)
    ensures Ordered(Sort(rows, less), less) && |Sort(rows, less)| == |rows|
    ensures forall x :: x in Sort(rows, less) <==> x in rows
  {
    if rows != [] {
      SortOrdered(rows[1..], less);
      assert rows == [rows[0]] + rows[1..];
      var front := Sort(rows[1..], less);
      forall i | 0 <= i < |front| ensures less(rows[0], front[i]) || less(front[i], rows[0]) {
        assert front[i] in front;
        var j :| 0 <= j < |rows[1..]| && rows[1..][j] == front[i];
        assert rows[j + 1] == front[i];
      }
      InsertOrdered(front, rows[0], less);
    }
  }

  /** An ordered list is determined by its members. */
  lemma {:induction false} OrderedUnique<T(!new)>(a: seq<T>, b: seq<T>, less: (T, T) -> bool)
    requires StrictOrder(less) && Ordered(a, less) && Ordered(b, less) && forall x :: x in a <==> x in b
    ensures a == b
    decreases a
  {
    if a == [] {
      FirstIn(b);
    } else {
      assert a[0] in b && b != [] && b[0] in a;
      FirstAgree(a, b, less);
      forall x ensures x in a[1..] <==> x in b[1..] {
        TailMembers(a, x, less);
        TailMembers(b, x, less);
      }
      OrderedUnique(a[1..], b[1..], less);
      assert a == [a[0]] + a[1..] && b == [b[0]] + b[1..];
    }
  }

  lemma FirstIn<T>(rows: seq<T>)
    ensures rows == [] || exists x :: x in rows
  {
    assert rows == [] || rows[0] in rows;
  }

  lemma IndexOrder<T(!new)>(rows: seq<T>, i: nat, j: nat, less: (T, T) -> bool)
    requires StrictOrder(less) && Ordered(rows, less) && i < |rows| && j < |rows|
    ensures less(rows[i], rows[j]) <==> i < j
  {
    if j < i {
      var x, y := rows[i], rows[j];
      assert less(y, x);
      assert less(x, y) ==> less(x, x);
    }
  }

  lemma FirstAgree<T(!new)>(a: seq<T>, b: seq<T>, less: (T, T) -> bool)
    requires StrictOrder(less) && Ordered(a, less) && Ordered(b, less)
    requires a != [] && b != [] && a[0] in b && b[0] in a
    ensures a[0] == b[0]
  {
    var i :| 0 <= i < |b| && b[i] == a[0];
    var j :| 0 <= j < |a| && a[j] == b[0];
    IndexOrder(b, 0, i, less);
    IndexOrder(a, j, 0, less);
  }

  lemma TailMembers<T(!new)>(a: seq<T>, x: T, less: (T, T) -> bool)
    requires StrictOrder(less) && Ordered(a, less) && a != []
    ensures x in a[1..] <==> x in a && x != a[0]
  {
    if x in a[1..] {
      var i :| 0 <= i < |a[1..]| && a[1..][i] == x;
      assert less(a[0], a[i + 1]);
    }
    if x in a && x != a[0] {
      var i :| 0 <= i < |a| && a[i] == x;
      assert a[1..][i - 1] == x;
    }
  }

  /** Rearranging the rows does not change the sorted list. */
  lemma SortIgnoresOrder<T(!new)>(a: seq<T>, b: seq<T>, less: (T, T) -> bool)
    requires StrictOrder(less) && NoTies(a, less) && NoTies(b, less) && forall x :: x in a <==> x in b
    ensures Sort(a, less) == Sort(b, less)
  {
    SortOrdered(a, less);
    SortOrdered(b, less);
    OrderedUnique(Sort(a, less), Sort(b, less), less);
  }

  lemma OrderedConcat<T>(a: seq<T>, b: seq<T>, less: (T, T) -> bool)
    requires Ordered(a, less) && Ordered(b, less) && forall x, y | x in a && y in b :: less(x, y)
    ensures Ordered(a + b, less)
  {
    forall i, j | 0 <= i < j < |a + b| ensures less((a + b)[i], (a + b)[j]) {
      if i < |a| && j >= |a| {
        assert a[i] in a && b[j - |a|] in b;
      }
    }
  }
}
