// Sizes of finite sets.
module Sets {
  lemma SubsetSize<T>(a: set<T>, b: set<T>)
    requires a <= b
    ensures |a| <= |b|
    ensures |a| == |b| ==> a == b
  {
    assert b == a + (b - a);
  }

  lemma DisjointSize<T>(a: set<T>, b: set<T>)
    requires a !! b
    ensures |a + b| == |a| + |b|
  {
  }

  // Positive numbers up to n are at most n.
  lemma {:induction false} BoundedSet(s: set<nat>, n: nat)
    requires forall t :: t in s ==> 1 <= t <= n
    ensures |s| <= n
  {
    if n == 0 {
      assert s == {};
    } else {
      BoundedSet(s - {n}, n - 1);
      assert |s| <= |s - {n}| + 1;
    }
  }
}
