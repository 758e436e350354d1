/** Finite sets: sums of weights, which are the meaning of the byte counters, and sizes. */
module Sums {
  ghost function Sum<T(!new)>(keys: set<T>, weight: T -> nat): nat {
    if keys == {} then 0
    else
      var k :| k in keys;
      weight(k) + Sum(keys - {k}, weight)
  }

  lemma {:induction false} SumWithout<T(!new)>(keys: set<T>, weight: T -> nat, k: T)
    requires k in keys
    ensures Sum(keys, weight) == weight(k) + Sum(keys - {k}, weight)
  {
    var q :| q in keys && Sum(keys, weight) == weight(q) + Sum(keys - {q}, weight);
    if q != k {
      SumWithout(keys - {q}, weight, k);
      SumWithout(keys - {k}, weight, q);
      assert keys - {q} - {k} == keys - {k} - {q};
    }
  }

  lemma {:induction false} SumAgrees<T(!new)>(keys: set<T>, left: T -> nat, right: T -> nat)
    requires forall k <- keys :: left(k) == right(k)
    ensures Sum(keys, left) == Sum(keys, right)
  {
    if keys != {} {
      var k :| k in keys;
      SumWithout(keys, left, k);
      SumWithout(keys, right, k);
      SumAgrees(keys - {k}, left, right);
    }
  }

  lemma {:induction false} SumSubset<T(!new)>(small: set<T>, large: set<T>, weight: T -> nat)
    requires small <= large
    ensures Sum(small, weight) <= Sum(large, weight)
  {
    if small != {} {
      var k :| k in small;
      SumWithout(small, weight, k);
      SumWithout(large, weight, k);
      SumSubset(small - {k}, large - {k}, weight);
    }
  }

  lemma SubsetSize<T>(small: set<T>, large: set<T>)
    requires small <= large
    ensures |small| <= |large| && (|small| == |large| ==> small == large)
  {
    assert large == small + (large - small);
  }

  /** What is left of a finite universe shrinks as a set in it grows. */
  lemma FewerRemain<T>(universe: set<T>, before: set<T>, after: set<T>)
    requires before <= after <= universe
    ensures before == after || |universe - after| < |universe - before|
  {
    SubsetSize(universe - after, universe - before);
    if before != after {
      var x :| x in after && x !in before;
      assert x in universe - before && x !in universe - after;
    }
  }
}
