/** Strict total orders and sorting, as the source's `Array.prototype.sort` calls use them. */
module Ordering {

  ghost predicate StrictTotalOrder<T(!new)>(before: (T, T) -> bool) {
    && (forall a :: !before(a, a))
    && (forall a, b, c :: before(a, b) && before(b, c) ==> before(a, c))
    && (forall a, b :: a == b || before(a, b) || before(b, a))
  }

  ghost predicate Ascending<T>(before: (T, T) -> bool, xs: seq<T>) {
    forall i, j :: 0 <= i < j < |xs| ==> before(xs[i], xs[j])
  }

  predicate Distinct<T(==)>(xs: seq<T>) {
    forall i, j :: 0 <= i < j < |xs| ==> xs[i] != xs[j]
  }

  ghost function Elements<T>(xs: seq<T>): set<T> {
    set x | x in xs
  }

  function Insert<T>(before: (T, T) -> bool, x: T, ys: seq<T>): (r: seq<T>)
    ensures multiset(r) == multiset{x} + multiset(ys)
  {
    if ys == [] || before(x, ys[0]) then [x] + ys
    else
      assert ys == [ys[0]] + ys[1..];
      [ys[0]] + Insert(before, x, ys[1..])
  }

  function Sort<T>(before: (T, T) -> bool, xs: seq<T>): (r: seq<T>)
    ensures multiset(r) == multiset(xs)
  {
    if xs == [] then []
    else
      assert xs == [xs[0]] + xs[1..];
      Insert(before, xs[0], Sort(before, xs[1..]))
  }

  lemma SortKeepsElements<T>(before: (T, T) -> bool, xs: seq<T>)
    ensures forall x :: x in Sort(before, xs) <==> x in xs
    ensures |Sort(before, xs)| == |xs|
  {
    forall x ensures x in Sort(before, xs) <==> x in xs {
      assert x in Sort(before, xs) <==> x in multiset(Sort(before, xs));
    }
    assert |multiset(Sort(before, xs))| == |multiset(xs)|;
  }

  lemma {:induction false} InsertAscending<T(!new)>(before: (T, T) -> bool, x: T, ys: seq<T>)
    requires StrictTotalOrder(before) && Ascending(before, ys) && x !in ys
    ensures Ascending(before, Insert(before, x, ys))
  {
    if ys != [] && !before(x, ys[0]) {
      var rest := Insert(before, x, ys[1..]);
      InsertAscending(before, x, ys[1..]);
      forall k | 0 <= k < |rest| ensures before(ys[0], rest[k]) {
        assert rest[k] in multiset(rest);
      }
    }
  }

  lemma {:induction false} SortAscending<T(!new)>(before: (T, T) -> bool, xs: seq<T>)
    requires StrictTotalOrder(before) && Distinct(xs)
    ensures Ascending(before, Sort(before, xs))
  {
    if xs != [] {
      SortAscending(before, xs[1..]);
      SortKeepsElements(before, xs[1..]);
      InsertAscending(before, xs[0], Sort(before, xs[1..]));
    }
  }

  /** Sorting what is sorted changes nothing. */
  lemma {:induction false} SortOfAscending<T>(before: (T, T) -> bool, xs: seq<T>)
    requires Ascending(before, xs)
    ensures Sort(before, xs) == xs
  {
    if xs != [] { SortOfAscending(before, xs[1..]); }
  }

  /** A set of values has one ascending listing. */
  lemma {:induction false} AscendingUnique<T(!new)>(before: (T, T) -> bool, a: seq<T>, b: seq<T>)
    requires StrictTotalOrder(before) && Ascending(before, a) && Ascending(before, b)
    requires forall x :: x in a <==> x in b
    ensures a == b
  {
    if b != [] { assert b[0] in b; }
    if a != [] {
      assert a[0] in b;
      assert b[0] in a;
      assert a[0] == b[0];
      forall x ensures x in a[1..] <==> x in b[1..] {
        assert x in a <==> x == a[0] || x in a[1..];
        assert x in b <==> x == b[0] || x in b[1..];
        assert a[0] !in a[1..] && b[0] !in b[1..];
      }
      AscendingUnique(before, a[1..], b[1..]);
      assert a == [a[0]] + a[1..] && b == [b[0]] + b[1..];
    }
  }

  /** Sorting forgets the order in which distinct values were listed. */
  lemma SortOrderFree<T(!new)>(before: (T, T) -> bool, xs: seq<T>, ys: seq<T>)
    requires StrictTotalOrder(before) && Distinct(xs) && Distinct(ys)
    requires forall x :: x in xs <==> x in ys
    ensures Sort(before, xs) == Sort(before, ys)
  {
    SortAscending(before, xs);
    SortAscending(before, ys);
    SortKeepsElements(before, xs);
    SortKeepsElements(before, ys);
    AscendingUnique(before, Sort(before, xs), Sort(before, ys));
  }
}
