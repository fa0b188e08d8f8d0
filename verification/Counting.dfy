/** Sizes of finite sets of integers. */
module Counting {

  function Range(lo: int, hi: int): (s: set<int>)
    ensures forall x :: x in s <==> lo <= x < hi
    decreases hi - lo
  {
    if lo >= hi then {} else Range(lo, hi - 1) + {hi - 1}
  }

  lemma {:induction false} RangeSize(lo: int, hi: int)
    requires lo <= hi
    ensures |Range(lo, hi)| == hi - lo
    decreases hi - lo
  {
    if lo < hi {
      RangeSize(lo, hi - 1);
    }
  }

  lemma SubsetSize(a: set<int>, b: set<int>)
    requires a <= b
    ensures |a| <= |b|
  {
    assert b == a + (b - a);
  }

  /** A set of numbers below `n` whose members all lie within `spread` of each
      other is small. */
  lemma {:induction false} NarrowSet(s: set<int>, spread: nat, n: nat)
    requires forall i :: i in s ==> 0 <= i < n
    requires forall i, j :: i in s && j in s && i <= j ==> j - i <= spread
    ensures |s| <= spread + 1
  {
    if n == 0 {
      assert s == {};
    } else if n - 1 in s {
      SubsetSize(s, Range(n - 1 - spread, n));
      RangeSize(n - 1 - spread, n);
    } else {
      NarrowSet(s, spread, n - 1);
    }
  }
}
