/** ORDER BY: the list with the same rows in the given strict order, which is unique. */
module Sorting {

  function Insert<T>(x: T, s: seq<T>, less: (T, T) -> bool): seq<T> {
    if s == [] || less(x, s[0]) then [x] + s else [s[0]] + Insert(x, s[1..], less)
  }

  function Sort<T>(s: seq<T>, less: (T, T) -> bool): seq<T> {
    if s == [] then [] else Insert(s[0], Sort(s[1..], less), less)
  }

  function Reverse<T>(s: seq<T>): (r: seq<T>)
    ensures |r| == |s| && forall i :: 0 <= i < |s| ==> r[i] == s[|s| - 1 - i]
  {
    seq(|s|, i requires 0 <= i < |s| => s[|s| - 1 - i])
  }

  ghost predicate Sorted<T>(s: seq<T>, less: (T, T) -> bool) {
    forall i, j :: 0 <= i < j < |s| ==> less(s[i], s[j])
  }

  /** less never holds both ways and is transitive. */
  ghost predicate StrictOrder<T(!new)>(less: (T, T) -> bool) {
    && (forall x, y :: !(less(x, y) && less(y, x)))
    && (forall x, y, z :: less(x, y) && less(y, z) ==> less(x, z))
  }

  /** Any two rows of the list are comparable. */
  ghost predicate Comparable<T>(s: seq<T>, less: (T, T) -> bool) {
    forall i, j :: 0 <= i < |s| && 0 <= j < |s| && i != j ==> less(s[i], s[j]) || less(s[j], s[i])
  }

  lemma {:induction false} InsertKeepsRows<T>(x: T, s: seq<T>, less: (T, T) -> bool)
    ensures multiset(Insert(x, s, less)) == multiset(s) + multiset{x}
    decreases |s|
  {
    if s != [] && !less(x, s[0]) {
      InsertKeepsRows(x, s[1..], less);
      assert s == [s[0]] + s[1..];
    }
  }

  lemma {:induction false} InsertSorted<T(!new)>(x: T, s: seq<T>, less: (T, T) -> bool)
    requires StrictOrder(less) && Sorted(s, less)
    requires forall y :: y in s ==> less(x, y) || less(y, x)
    ensures Sorted(Insert(x, s, less), less)
    decreases |s|
  {
    if s == [] {
    } else if less(x, s[0]) {
      assert forall j :: 0 < j < |s| ==> less(s[0], s[j]);
    } else {
      InsertSorted(x, s[1..], less);
      InsertKeepsRows(x, s[1..], less);
      var rest := Insert(x, s[1..], less);
      forall j | 0 <= j < |rest|
        ensures less(s[0], rest[j])
      {
        assert rest[j] in multiset(rest);
        assert rest[j] == x || rest[j] in s[1..];
      }
    }
  }

  lemma {:induction false} SortOrders<T(!new)>(s: seq<T>, less: (T, T) -> bool)
    requires StrictOrder(less) && Comparable(s, less)
    ensures multiset(Sort(s, less)) == multiset(s) && Sorted(Sort(s, less), less)
    decreases |s|
  {
    if s != [] {
      SortOrders(s[1..], less);
      var rest := Sort(s[1..], less);
      forall y | y in rest
        ensures less(s[0], y) || less(y, s[0])
      {
        assert y in multiset(rest);
        var j :| 0 <= j < |s[1..]| && s[1..][j] == y;
        assert s[j + 1] == y;
      }
      InsertSorted(s[0], rest, less);
      InsertKeepsRows(s[0], rest, less);
      assert s == [s[0]] + s[1..];
    }
  }

  lemma FirstIsLeast<T(!new)>(a: seq<T>, b: seq<T>, less: (T, T) -> bool)
    requires StrictOrder(less) && Sorted(a, less) && Sorted(b, less) && multiset(a) == multiset(b) && a != [] && b != []
    ensures a[0] == b[0]
  {
    assert a[0] in multiset(b) && b[0] in multiset(a);
    var j :| 0 <= j < |b| && b[j] == a[0];
    var i :| 0 <= i < |a| && a[i] == b[0];
    var x, y := a[0], b[0];
    assert j > 0 ==> less(y, x);
    assert i > 0 ==> less(x, y);
  }

  lemma SplitFirst<T>(a: seq<T>)
    requires a != []
    ensures a == [a[0]] + a[1..] && multiset(a[1..]) == multiset(a) - multiset{a[0]}
  {
    assert a == [a[0]] + a[1..];
  }

  /** Whatever the engine does, ORDER BY a strict order has one possible result. */
  lemma {:induction false} OrderingIsUnique<T(!new)>(a: seq<T>, b: seq<T>, less: (T, T) -> bool)
    requires StrictOrder(less) && Sorted(a, less) && Sorted(b, less) && multiset(a) == multiset(b)
    ensures a == b
    decreases |a|
  {
    assert |a| == |multiset(a)| == |multiset(b)| == |b|;
    if a != [] {
      FirstIsLeast(a, b, less);
      SplitFirst(a);
      SplitFirst(b);
      OrderingIsUnique(a[1..], b[1..], less);
    }
  }

  lemma {:induction false} ReverseKeepsRows<T>(s: seq<T>)
    ensures multiset(Reverse(s)) == multiset(s)
    decreases |s|
  {
    if s != [] {
      ReverseKeepsRows(s[1..]);
      assert Reverse(s) == Reverse(s[1..]) + [s[0]];
      assert s == [s[0]] + s[1..];
    }
  }

  /** Descending order is ascending order read backwards. */
  lemma DescendingIsReversed<T(!new)>(s: seq<T>, less: (T, T) -> bool, greater: (T, T) -> bool)
    requires StrictOrder(less) && Comparable(s, less)
    requires forall x, y :: greater(x, y) <==> less(y, x)
    ensures Sort(s, greater) == Reverse(Sort(s, less))
  {
    SortOrders(s, less);
    assert Comparable(s, greater);
    SortOrders(s, greater);
    ReverseKeepsRows(Sort(s, less));
    OrderingIsUnique(Sort(s, greater), Reverse(Sort(s, less)), greater);
  }

  /** Replacing every row by one that compares the same commutes with sorting. */
  lemma {:induction false} SortCommutesWithMap<T, U>(s: seq<T>, f: T -> U, less: (T, T) -> bool, lessU: (U, U) -> bool)
    requires forall x, y :: x in s && y in s ==> (less(x, y) <==> lessU(f(x), f(y)))
    ensures Sort(Mapped(s, f), lessU) == Mapped(Sort(s, less), f)
    ensures forall x :: x in Sort(s, less) ==> x in s
    decreases |s|
  {
    if s != [] {
      SortCommutesWithMap(s[1..], f, less, lessU);
      assert Mapped(s, f)[1..] == Mapped(s[1..], f);
      InsertCommutesWithMap(s[0], Sort(s[1..], less), f, less, lessU);
      InsertKeepsRows(s[0], Sort(s[1..], less), less);
      forall x | x in Sort(s, less)
        ensures x in s
      {
        assert x in multiset(Sort(s, less));
      }
    }
  }

  function Mapped<T, U>(s: seq<T>, f: T -> U): (r: seq<U>)
    ensures |r| == |s| && forall i :: 0 <= i < |s| ==> r[i] == f(s[i])
  {
    seq(|s|, i requires 0 <= i < |s| => f(s[i]))
  }

  lemma {:induction false} InsertCommutesWithMap<T, U>(x: T, s: seq<T>, f: T -> U, less: (T, T) -> bool,
                                                       lessU: (U, U) -> bool)
    requires forall y :: y in s ==> (less(x, y) <==> lessU(f(x), f(y)))
    ensures Insert(f(x), Mapped(s, f), lessU) == Mapped(Insert(x, s, less), f)
    decreases |s|
  {
    if s == [] || less(x, s[0]) {
      assert s != [] ==> s[0] in s;
    } else {
      assert s[0] in s;
      assert Mapped(s, f)[1..] == Mapped(s[1..], f);
      InsertCommutesWithMap(x, s[1..], f, less, lessU);
    }
  }
}
