/** A stable sort, by a strict order that may leave elements unordered. */
module Sorting {

  function Map<T, U>(xs: seq<T>, f: T -> U): (r: seq<U>)
    ensures |r| == |xs| && forall i :: 0 <= i < |xs| ==> r[i] == f(xs[i])
  {
    seq(|xs|, i requires 0 <= i < |xs| => f(xs[i]))
  }

  /** Goes in front of the elements it comes before, and after all others. */
  function Place<T>(xs: seq<T>, x: T, before: (T, T) -> bool): seq<T> {
    if xs == [] || !before(x, xs[|xs| - 1]) then xs + [x]
    else Place(xs[..|xs| - 1], x, before) + [xs[|xs| - 1]]
  }

  function Sorted<T>(xs: seq<T>, before: (T, T) -> bool): seq<T> {
    if xs == [] then [] else Place(Sorted(xs[..|xs| - 1], before), xs[|xs| - 1], before)
  }

  ghost predicate InOrder<T(!new)>(xs: seq<T>, before: (T, T) -> bool) {
    forall i, j :: 0 <= i < j < |xs| ==> !before(xs[j], xs[i])
  }

  ghost predicate WeakOrder<T(!new)>(before: (T, T) -> bool) {
    && (forall a, b :: before(a, b) ==> !before(b, a))
    && (forall a, b, c :: !before(b, a) && !before(c, b) ==> !before(c, a))
  }

  lemma {:induction false} PlaceKeeps<T>(xs: seq<T>, x: T, before: (T, T) -> bool)
    ensures multiset(Place(xs, x, before)) == multiset(xs) + multiset{x}
  {
    if xs != [] && before(x, xs[|xs| - 1]) {
      var init, last := xs[..|xs| - 1], xs[|xs| - 1];
      PlaceKeeps(init, x, before);
      assert xs == init + [last];
    }
  }

  lemma {:induction false} SortedKeeps<T>(xs: seq<T>, before: (T, T) -> bool)
    ensures multiset(Sorted(xs, before)) == multiset(xs)
    ensures |Sorted(xs, before)| == |xs|
  {
    if xs != [] {
      var init, last := xs[..|xs| - 1], xs[|xs| - 1];
      SortedKeeps(init, before);
      PlaceKeeps(Sorted(init, before), last, before);
      assert xs == init + [last];
      assert |multiset(Sorted(xs, before))| == |multiset(xs)|;
    }
  }

  lemma {:induction false} PlaceInOrder<T(!new)>(xs: seq<T>, x: T, before: (T, T) -> bool)
    requires InOrder(xs, before) && WeakOrder(before)
    ensures InOrder(Place(xs, x, before), before)
  {
    if xs == [] {
    } else if !before(x, xs[|xs| - 1]) {
      assert forall i :: 0 <= i < |xs| ==> !before(xs[|xs| - 1], xs[i]) || i == |xs| - 1;
    } else {
      var init, last := xs[..|xs| - 1], xs[|xs| - 1];
      PlaceInOrder(init, x, before);
      PlaceKeeps(init, x, before);
      var placed := Place(init, x, before);
      forall i | 0 <= i < |placed| ensures !before(last, placed[i]) {
        assert placed[i] in multiset(init) + multiset{x};
        if placed[i] in init {
          var j :| 0 <= j < |init| && init[j] == placed[i];
          assert xs[j] == placed[i];
        }
      }
      hide Place, WeakOrder;
    }
  }

  /** The result is in order, and a permutation of the input. */
  lemma {:induction false} SortedInOrder<T(!new)>(xs: seq<T>, before: (T, T) -> bool)
    requires WeakOrder(before)
    ensures InOrder(Sorted(xs, before), before)
    ensures multiset(Sorted(xs, before)) == multiset(xs)
  {
    SortedKeeps(xs, before);
    if xs != [] {
      SortedInOrder(xs[..|xs| - 1], before);
      hide WeakOrder, InOrder, Place;
      PlaceInOrder(Sorted(xs[..|xs| - 1], before), xs[|xs| - 1], before);
    }
  }

  lemma {:induction false} PlaceImages<T, U>(xs: seq<T>, x: T, before: (T, T) -> bool, f: T -> U)
    ensures multiset(Map(Place(xs, x, before), f)) == multiset(Map(xs, f)) + multiset{f(x)}
  {
    MapAppend(xs, x, f);
    if xs != [] && before(x, xs[|xs| - 1]) {
      var init, last := xs[..|xs| - 1], xs[|xs| - 1];
      PlaceImages(init, x, before, f);
      MapAppend(Place(init, x, before), last, f);
      MapAppend(init, last, f);
      assert xs == init + [last];
      hide Map;
    }
  }

  lemma MapAppend<T, U>(xs: seq<T>, x: T, f: T -> U)
    ensures Map(xs + [x], f) == Map(xs, f) + [f(x)]
  {
  }

  /** Sorting permutes the images of the elements too. */
  lemma {:induction false} SortedImages<T, U>(xs: seq<T>, before: (T, T) -> bool, f: T -> U)
    ensures multiset(Map(Sorted(xs, before), f)) == multiset(Map(xs, f))
  {
    if xs != [] {
      var init, last := xs[..|xs| - 1], xs[|xs| - 1];
      SortedImages(init, before, f);
      PlaceImages(Sorted(init, before), last, before, f);
      MapAppend(init, last, f);
      assert xs == init + [last];
      hide Map, Place;
    }
  }

  // ---- Distinctness survives permutation ----

  lemma DistinctPermutation<T>(a: seq<T>, b: seq<T>)
    requires multiset(a) == multiset(b) && forall i, j :: 0 <= i < j < |a| ==> a[i] != a[j]
    ensures forall i, j :: 0 <= i < j < |b| ==> b[i] != b[j]
    ensures |a| == |b|
  {
    forall i, j | 0 <= i < j < |b| ensures b[i] != b[j] {
      if b[i] == b[j] {
        AtMostOnce(a, b[i]);
        Twice(b, i, j);
      }
    }
    assert |multiset(a)| == |a| && |multiset(b)| == |b|;
  }

  lemma {:induction false} AtMostOnce<T>(a: seq<T>, x: T)
    requires forall i, j :: 0 <= i < j < |a| ==> a[i] != a[j]
    ensures multiset(a)[x] <= 1
  {
    if a != [] {
      var init, last := a[..|a| - 1], a[|a| - 1];
      assert a == init + [last];
      AtMostOnce(init, x);
      assert last !in init;
      assert last !in multiset(init);
    }
  }

  lemma Twice<T>(b: seq<T>, i: nat, j: nat)
    requires i < j < |b| && b[i] == b[j]
    ensures multiset(b)[b[i]] >= 2
  {
    assert b == b[..j] + b[j..];
    assert b[..j][i] == b[i] && b[j..][0] == b[i];
    assert b[i] in multiset(b[..j]) && b[i] in multiset(b[j..]);
  }
}
