/** Counting the elements of finite sets and of sequences without repetition. */
module Sizes {

  lemma SubsetSize<T>(small: set<T>, big: set<T>)
    requires small <= big
    ensures |small| <= |big|
    ensures |small| == |big| ==> small == big
  {
    assert big == small + (big - small);
    if |small| == |big| {
      assert |big - small| == 0;
    }
  }

  ghost function Elements<T>(items: seq<T>): set<T> {
    set item | item in items
  }

  lemma {:induction false} DistinctSize<T>(items: seq<T>)
    requires forall i, j :: 0 <= i < j < |items| ==> items[i] != items[j]
    ensures |Elements(items)| == |items|
  {
    if items != [] {
      var last := |items| - 1;
      DistinctSize(items[..last]);
      assert items == items[..last] + [items[last]];
      assert Elements(items) == Elements(items[..last]) + {items[last]};
    }
  }

  /** The numbers below a bound. */
  ghost function Below(n: nat): (numbers: set<nat>)
    ensures |numbers| == n
    ensures forall i: nat :: i in numbers <==> i < n
  {
    if n == 0 then {} else Below(n - 1) + {n - 1}
  }
}
