/** A ring of n slots, filled and emptied under two counters that wrap at m, a multiple of n. */
module Ring {
  import opened Division

  /** A counter that wraps at m and has counted to n. */
  ghost predicate Counts(x: nat, n: nat, m: nat) {
    m > 0 && x == n % m
  }

  /** The ring holds queue q, whose first element is the one with number lo. */
  ghost predicate RingOk<T>(ring: seq<T>, q: seq<T>, lo: nat, n: nat) {
    n > 0 && |ring| == n && |q| <= n && forall k :: 0 <= k < |q| ==> ring[(lo + k) % n] == q[k]
  }

  lemma SlotOf(a: nat, r: nat, n: nat)
    requires n > 0
    ensures (a * n + r) % n == r % n
  {
    assert r == r / n * n + r % n;
    assert a * n + r == (a + r / n) * n + r % n;
    Remainder(a * n + r, a + r / n, r % n, n);
  }

  /** A counter that wraps at m finds the same slot. */
  lemma WrapSlot(x: nat, m: nat, n: nat, c: nat)
    requires n > 0 && m == c * n && m > 0
    ensures x % m % n == x % n
  {
    assert x == x / m * m + x % m;
    assert x / m * m == x / m * c * n;
    SlotOf(x / m * c, x % m, n);
  }

  lemma WrapNext(x: nat, m: nat)
    requires m > 0
    ensures (x % m + 1) % m == (x + 1) % m
  {
    assert x + 1 == x / m * m + (x % m + 1);
    SlotOf(x / m, x % m + 1, m);
  }

  /** Two numbers less than m apart agree modulo m only when they are equal. */
  lemma WrapEqual(a: nat, b: nat, m: nat)
    requires m > 0 && a <= b < a + m
    ensures a % m == b % m <==> a == b
  {
    if a % m == b % m && a != b {
      assert (b / m - a / m) * m == b - a;
      BigMultiple(b / m - a / m, m);
      assert false;
    }
  }

  lemma RingPush<T>(ring: seq<T>, q: seq<T>, lo: nat, n: nat, x: T)
    requires RingOk(ring, q, lo, n) && |q| < n
    ensures RingOk(ring[(lo + |q|) % n := x], q + [x], lo, n)
  {
    var ring', q' := ring[(lo + |q|) % n := x], q + [x];
    forall k | 0 <= k < |q'| ensures ring'[(lo + k) % n] == q'[k] {
      if k < |q| { WrapEqual(lo + k, lo + |q|, n); }
    }
  }

  lemma RingPop<T>(ring: seq<T>, q: seq<T>, lo: nat, n: nat)
    requires RingOk(ring, q, lo, n) && |q| > 0
    ensures RingOk(ring, q[1..], lo + 1, n) && ring[lo % n] == q[0]
  {
    assert ring[(lo + 0) % n] == q[0];
    forall k | 0 <= k < |q[1..]| ensures ring[(lo + 1 + k) % n] == q[1..][k] {
      assert ring[(lo + (k + 1)) % n] == q[k + 1];
    }
  }
}
