/** Shared vocabulary: optional values, results, and totals over sequences. */
module Prelude {

  datatype Option<+T> = None | Some(value: T)

  datatype Result<+T, +E> = Ok(value: T) | Err(error: E)

  function Min(a: int, b: int): int { if a <= b then a else b }

  function Max(a: int, b: int): int { if a >= b then a else b }

  predicate Distinct<T(==)>(xs: seq<T>) {
    forall i, j :: 0 <= i < j < |xs| ==> xs[i] != xs[j]
  }

  /** The total of `f` over a sequence. */
  function Sum<T>(xs: seq<T>, f: T -> int): int {
    if xs == [] then 0 else Sum(xs[..|xs| - 1], f) + f(xs[|xs| - 1])
  }

  /** Changing one element changes the total by exactly that element's change. */
  lemma {:induction false} SumUpdate<T>(xs: seq<T>, i: nat, x: T, f: T -> int)
    requires i < |xs|
    ensures Sum(xs[i := x], f) == Sum(xs, f) - f(xs[i]) + f(x)
  {
    var last := |xs| - 1;
    if i == last {
      assert xs[i := x][..last] == xs[..last];
    } else {
      assert xs[i := x][..last] == xs[..last][i := x];
      SumUpdate(xs[..last], i, x, f);
    }
  }

  lemma {:induction false} SumZero<T>(xs: seq<T>, f: T -> int)
    requires forall i :: 0 <= i < |xs| ==> f(xs[i]) == 0
    ensures Sum(xs, f) == 0
  {
    if xs != [] {
      SumZero(xs[..|xs| - 1], f);
    }
  }

  lemma {:induction false} SumIndicator<T>(xs: seq<T>, f: T -> int)
    requires forall i :: 0 <= i < |xs| ==> 0 <= f(xs[i]) <= 1
    ensures 0 <= Sum(xs, f) <= |xs|
    ensures Sum(xs, f) > 0 ==> exists i :: 0 <= i < |xs| && f(xs[i]) == 1
  {
    if xs != [] {
      SumIndicator(xs[..|xs| - 1], f);
    }
  }

  /** A total of non-negative terms is at least each of its terms. */
  lemma {:induction false} SumAtLeastOne<T>(xs: seq<T>, f: T -> int, i: nat)
    requires i < |xs| && forall j :: 0 <= j < |xs| ==> 0 <= f(xs[j]) <= 1
    ensures f(xs[i]) <= Sum(xs, f)
  {
    SumIndicator(xs[..|xs| - 1], f);
    if i < |xs| - 1 {
      SumAtLeastOne(xs[..|xs| - 1], f, i);
    }
  }

  /** The positions that an indicator picks. */
  ghost function Picked<T>(xs: seq<T>, f: T -> int): (r: set<int>)
    ensures forall i :: i in r <==> 0 <= i < |xs| && f(xs[i]) == 1
  {
    set i | 0 <= i < |xs| && f(xs[i]) == 1
  }

  lemma PickedLast<T>(xs: seq<T>, f: T -> int)
    requires xs != []
    ensures var last := |xs| - 1;
      Picked(xs, f) == Picked(xs[..last], f) + if f(xs[last]) == 1 then {last} else {}
  {
    var init := xs[..|xs| - 1];
    assert forall i :: 0 <= i < |init| ==> xs[i] == init[i];
    hide Picked;
  }

  /** The total of an indicator is the number of positions it picks. */
  lemma {:induction false} SumIsCount<T>(xs: seq<T>, f: T -> int)
    requires forall i :: 0 <= i < |xs| ==> 0 <= f(xs[i]) <= 1
    ensures |Picked(xs, f)| == Sum(xs, f)
  {
    if xs == [] {
      assert Picked(xs, f) == {};
    } else {
      var last := |xs| - 1;
      SumIsCount(xs[..last], f);
      PickedLast(xs, f);
      hide Picked;
      assert last !in Picked(xs[..last], f);
    }
  }

  /** The multiset union of `f` over a sequence. */
  function Gather<T, U>(xs: seq<T>, f: T -> multiset<U>): multiset<U> {
    if xs == [] then multiset{} else Gather(xs[..|xs| - 1], f) + f(xs[|xs| - 1])
  }

  lemma {:induction false} GatherUpdate<T, U>(xs: seq<T>, i: nat, x: T, f: T -> multiset<U>)
    requires i < |xs|
    ensures Gather(xs[i := x], f) + f(xs[i]) == Gather(xs, f) + f(x)
  {
    var last := |xs| - 1;
    if i == last {
      assert xs[i := x][..last] == xs[..last];
    } else {
      assert xs[i := x][..last] == xs[..last][i := x];
      GatherUpdate(xs[..last], i, x, f);
      calc {
        Gather(xs[i := x], f) + f(xs[i]);
        (Gather(xs[..last][i := x], f) + f(xs[i])) + f(xs[last]);
        (Gather(xs[..last], f) + f(x)) + f(xs[last]);
        Gather(xs, f) + f(x);
      }
    }
  }

  /** Two different positions contribute separately. */
  lemma {:induction false} GatherPair<T, U>(xs: seq<T>, i: nat, j: nat, f: T -> multiset<U>)
    requires i < |xs| && j < |xs|
    ensures f(xs[i]) <= Gather(xs, f)
    ensures i != j ==> f(xs[i]) + f(xs[j]) <= Gather(xs, f)
  {
    var last := |xs| - 1;
    if i < last && j < last {
      GatherPair(xs[..last], i, j, f);
    } else if i < last {
      GatherPair(xs[..last], i, i, f);
    } else if j < last {
      GatherPair(xs[..last], j, j, f);
    }
  }
}
