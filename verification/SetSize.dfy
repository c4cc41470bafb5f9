/** Facts about the sizes of finite sets. */
module SetSize {
  lemma SubsetSize<T>(a: set<T>, b: set<T>)
    requires a <= b
    ensures |a| <= |b|
  {
    assert b == a + (b - a);
  }

  /** No more than n different numbers are below n. */
  lemma {:induction false} Pigeonhole(s: set<nat>, n: nat)
    requires forall x :: x in s ==> x < n
    ensures |s| <= n
  {
    if n > 0 {
      Pigeonhole(s - {n - 1}, n - 1);
    } else {
      assert s == {};
    }
  }

  /** The numbers below n. */
  ghost function Below(n: nat): (s: set<nat>)
    ensures |s| == n && forall x: nat :: x in s <==> x < n
  {
    if n == 0 then {} else Below(n - 1) + {n - 1}
  }

  ghost function Only(x: nat): (s: set<nat>)
    ensures s == {x}
  {
    {x}
  }

  /** The numbers from lo up to hi. */
  ghost function Between(lo: nat, hi: nat): (s: set<nat>)
    ensures (forall x: nat :: x in s <==> lo <= x < hi) && |s| == if lo <= hi then hi - lo else 0
    decreases hi
  {
    if hi <= lo then {} else Between(lo, hi - 1) + {hi - 1}
  }
}
