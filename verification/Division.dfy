/** Quotients and remainders by a variable. */
module Division {

  lemma BigMultiple(d: int, m: int)
    requires m > 0 && d != 0
    ensures d * m >= m || d * m <= -m
  {
    if d > 0 { assert (d - 1) * m >= 0; } else { assert (-d - 1) * m >= 0; }
  }

  /** There is one quotient and one remainder. */
  lemma Remainder(y: nat, q: nat, r: nat, n: nat)
    requires n > 0 && y == q * n + r && r < n
    ensures y / n == q && y % n == r
  {
    var p, s := y / n, y % n;
    assert y == p * n + s;
    assert (p - q) * n == r - s;
    if p != q {
      BigMultiple(p - q, n);
      assert false;
    }
  }

  lemma Distribute(a: int, b: int, c: int)
    ensures (a + b) * c == a * c + b * c
  {
  }

  lemma Regroup(a: int, b: int, c: int)
    ensures a * b * c == a * (c * b)
  {
  }

  lemma LessTimes(r: nat, p: nat, m: nat)
    requires r < p
    ensures r * m + m <= m * p
  {
    Distribute(r, p - r, m);
    assert (p - r) * m >= m;
  }

  lemma Nested(q: nat, p: nat, r: nat, m: nat, s: nat)
    requires r < p && s < m
    ensures (q * p + r) * m + s == q * (m * p) + (r * m + s) && r * m + s < m * p
  {
    Distribute(q * p, r, m);
    Regroup(q, p, m);
    LessTimes(r, p, m);
  }

  lemma DivideTwice(w: nat, m: nat, p: nat)
    requires m > 0 && p > 0 && m * p > 0
    ensures w / (m * p) == w / m / p
  {
    var v := w / m;
    var q, r, s := v / p, v % p, w % m;
    Divided(w, m);
    Divided(v, p);
    Nested(q, p, r, m, s);
    Remainder(w, q, r * m + s, m * p);
  }

  lemma Divided(w: nat, m: nat)
    requires m > 0
    ensures w == w / m * m + w % m && 0 <= w % m < m
  {
  }
}
