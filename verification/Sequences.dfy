/** Parts of sequences: the newest elements, pages, and first occurrences. */
module Sequences {
  import opened Ordering

  /** `splice(0, overflow)`: the last `max` elements. */
  function Newest<T>(xs: seq<T>, max: nat): (r: seq<T>)
    ensures |r| <= max && |r| <= |xs| && (|xs| <= max ==> r == xs)
    ensures forall x :: x in r ==> x in xs
  {
    if |xs| > max then xs[|xs| - max..] else xs
  }

  lemma NewestIsSuffix<T>(xs: seq<T>, max: nat)
    ensures var r := Newest(xs, max); r == xs[|xs| - |r|..]
  {}

  /** Up to `count` elements from `start` on. */
  function Slice<T>(xs: seq<T>, start: nat, count: nat): seq<T> {
    if start >= |xs| then [] else if start + count > |xs| then xs[start..] else xs[start..start + count]
  }

  /** Where a value first occurs. */
  function FirstIndex<T(==)>(xs: seq<T>, x: T): (i: nat)
    requires x in xs
    ensures i < |xs| && xs[i] == x && x !in xs[..i]
  {
    if xs[0] == x then 0
    else
      assert xs == [xs[0]] + xs[1..];
      var i := FirstIndex(xs[1..], x);
      assert xs[..i + 1] == [xs[0]] + xs[1..][..i];
      i + 1
  }

  ghost predicate FirstBefore<T>(xs: seq<T>, x: T, y: T) {
    x in xs && y in xs && FirstIndex(xs, x) < FirstIndex(xs, y)
  }

  /** Each value once, in the order of first occurrence. */
  ghost predicate FirstOccurrences<T(!new)>(firsts: seq<T>, xs: seq<T>) {
    && Distinct(firsts) && (forall x :: x in firsts <==> x in xs)
    && forall i, j :: 0 <= i < j < |firsts| ==> FirstBefore(xs, firsts[i], firsts[j])
  }

  lemma {:induction false} FirstIndexStays<T>(xs: seq<T>, x: T, y: T)
    requires x in xs
    ensures FirstIndex(xs + [y], x) == FirstIndex(xs, x)
  {
    if xs[0] != x {
      assert (xs + [y])[1..] == xs[1..] + [y];
      FirstIndexStays(xs[1..], x, y);
    }
  }

  lemma {:induction false} FirstIndexLast<T>(xs: seq<T>, x: T)
    requires x !in xs
    ensures FirstIndex(xs + [x], x) == |xs|
  {
    if xs != [] {
      assert (xs + [x])[1..] == xs[1..] + [x];
      FirstIndexLast(xs[1..], x);
    }
  }

  /** Adds the next value unless it has been seen. */
  lemma NextOccurrence<T(!new)>(firsts: seq<T>, xs: seq<T>, x: T)
    requires FirstOccurrences(firsts, xs)
    ensures FirstOccurrences(if x in firsts then firsts else firsts + [x], xs + [x])
  {
    forall y | y in xs ensures FirstIndex(xs + [x], y) == FirstIndex(xs, y) { FirstIndexStays(xs, y, x); }
    var more := if x in firsts then firsts else firsts + [x];
    if x !in firsts { FirstIndexLast(xs, x); }
    forall i, j | 0 <= i < j < |more|
      ensures FirstBefore(xs + [x], more[i], more[j]) {
      assert more[i] in firsts;
      assert j < |firsts| ==> more[j] in firsts;
    }
  }

  lemma OccurrencesDistinct<T(!new)>(firsts: seq<T>, xs: seq<T>)
    requires FirstOccurrences(firsts, xs)
    ensures Distinct(firsts)
  {}

  lemma NoOccurrences<T(!new)>()
    ensures FirstOccurrences<T>([], [])
  {}
}
