/** Sizes of sets. */
module Sets {
  lemma Fewer<T>(small: set<T>, large: set<T>)
    requires small <= large
    ensures |small| <= |large|
  {
    assert small + (large - small) == large;
  }

  lemma Grown<T>(before: set<T>, after: set<T>, x: T)
    requires x !in before && forall y | y != x :: y in before <==> y in after
    ensures |after| == |before| + if x in after then 1 else 0
  {
    assert after == if x in after then before + {x} else before;
  }
}
