/** Stable sorting by an integer key. */
module Sorting {

  function Insert<T>(xs: seq<T>, x: T, key: T -> int): seq<T>
  {
    if xs == [] || key(xs[|xs| - 1]) <= key(x) then xs + [x]
    else Insert(xs[..|xs| - 1], x, key) + [xs[|xs| - 1]]
  }

  function SortBy<T>(xs: seq<T>, key: T -> int): seq<T>
  {
    if xs == [] then [] else Insert(SortBy(xs[..|xs| - 1], key), xs[|xs| - 1], key)
  }

  predicate Sorted<T>(xs: seq<T>, key: T -> int)
  {
    forall i, j :: 0 <= i < j < |xs| ==> key(xs[i]) <= key(xs[j])
  }

  lemma {:induction false} InsertIsPermutation<T>(xs: seq<T>, x: T, key: T -> int)
    ensures multiset(Insert(xs, x, key)) == multiset(xs) + multiset{x}
  {
    if xs != [] && key(xs[|xs| - 1]) > key(x) {
      InsertIsPermutation(xs[..|xs| - 1], x, key);
      assert xs == xs[..|xs| - 1] + [xs[|xs| - 1]];
    }
  }

  lemma {:induction false} InsertStaysBelow<T>(xs: seq<T>, x: T, bound: int, key: T -> int)
    requires key(x) <= bound && forall i :: 0 <= i < |xs| ==> key(xs[i]) <= bound
    ensures forall i :: 0 <= i < |Insert(xs, x, key)| ==> key(Insert(xs, x, key)[i]) <= bound
  {
    if xs != [] && key(xs[|xs| - 1]) > key(x) {
      InsertStaysBelow(xs[..|xs| - 1], x, bound, key);
    }
  }

  lemma {:induction false} InsertSorts<T>(xs: seq<T>, x: T, key: T -> int)
    requires Sorted(xs, key)
    ensures Sorted(Insert(xs, x, key), key)
  {
    if xs != [] && key(xs[|xs| - 1]) > key(x) {
      var front, last := xs[..|xs| - 1], xs[|xs| - 1];
      InsertSorts(front, x, key);
      InsertStaysBelow(front, x, key(last), key);
    }
  }

  lemma {:induction false} SortSorts<T>(xs: seq<T>, key: T -> int)
    ensures Sorted(SortBy(xs, key), key) && multiset(SortBy(xs, key)) == multiset(xs)
    ensures |SortBy(xs, key)| == |xs|
  {
    if xs != [] {
      var front := xs[..|xs| - 1];
      SortSorts(front, key);
      InsertSorts(SortBy(front, key), xs[|xs| - 1], key);
      InsertIsPermutation(SortBy(front, key), xs[|xs| - 1], key);
      assert xs == front + [xs[|xs| - 1]];
    }
    SameLength(SortBy(xs, key), xs);
  }

  lemma SameLength<T>(x: seq<T>, y: seq<T>)
    requires multiset(x) == multiset(y)
    ensures |x| == |y|
  {
    assert |x| == |multiset(x)| && |y| == |multiset(y)|;
  }

  lemma LeastFirst<T>(x: seq<T>, y: seq<T>, key: T -> int)
    requires Sorted(x, key) && Sorted(y, key) && multiset(x) == multiset(y) && x != [] && y != []
    ensures key(x[0]) == key(y[0])
  {
    assert y[0] in multiset(x) && x[0] in multiset(y);
    var j :| 0 <= j < |x| && x[j] == y[0];
    var i :| 0 <= i < |y| && y[i] == x[0];
  }

  lemma TailMultiset<T>(x: seq<T>, y: seq<T>)
    requires x != [] && y != [] && x[0] == y[0] && multiset(x) == multiset(y)
    ensures multiset(x[1..]) == multiset(y[1..])
  {
    assert x == [x[0]] + x[1..] && y == [y[0]] + y[1..];
    assert multiset(x[1..]) == multiset(x) - multiset{x[0]};
    assert multiset(y[1..]) == multiset(y) - multiset{y[0]};
  }

  /** Elements with distinct keys have one sorted order. */
  lemma {:induction false} SortedUnique<T>(x: seq<T>, y: seq<T>, key: T -> int)
    requires Sorted(x, key) && Sorted(y, key) && multiset(x) == multiset(y)
    requires forall p, q :: p in x && q in x && key(p) == key(q) ==> p == q
    ensures x == y
    decreases |x|
  {
    SameLength(x, y);
    if x != [] {
      LeastFirst(x, y, key);
      assert y[0] in multiset(x);
      TailMultiset(x, y);
      SortedUnique(x[1..], y[1..], key);
    }
  }
}
