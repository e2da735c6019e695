/** Quotients and remainders of naturals. */
module Arithmetic {

  lemma MulMonotone(a: int, b: int, k: nat)
    requires a <= b
    ensures a * k <= b * k
  {
    assert b * k == a * k + (b - a) * k;
  }

  // Named arithmetic, so that proofs can leave it uninterpreted.
  function Times(a: nat, b: nat): nat {
    a * b
  }

  function Quotient(x: nat, k: nat): nat
    requires k > 0
  {
    x / k
  }

  lemma QuotientBounds(x: nat, k: nat)
    requires k > 0
    ensures Times(Quotient(x, k), k) <= x < Times(Quotient(x, k) + 1, k)
  {
    assert x == k * (x / k) + x % k;
  }

  lemma FactorAtMost(q: nat, r: nat, k: nat, x: nat)
    requires Times(q, k) <= x < Times(r + 1, k)
    ensures q <= r
  {
    if r + 1 <= q {
      MulMonotone(r + 1, q, k);
    }
  }

  lemma QuotientAtLeast(x: nat, k: nat, q: nat)
    requires k > 0 && Times(q, k) <= x
    ensures Quotient(x, k) >= q
  {
    hide Times, Quotient;
    QuotientBounds(x, k);
    FactorAtMost(q, Quotient(x, k), k, x);
  }

  lemma QuotientMonotone(a: nat, b: nat, k: nat)
    requires a <= b && k > 0
    ensures Quotient(a, k) <= Quotient(b, k)
  {
    hide Times, Quotient;
    QuotientBounds(a, k);
    QuotientAtLeast(b, k, Quotient(a, k));
  }

  lemma LargerFactor(q: nat, s: nat, t: nat)
    requires s <= t
    ensures Times(q, s) <= Times(q, t)
  {
    MulMonotone(s, t, q);
    assert q * s == s * q && q * t == t * q;
  }

  lemma QuotientAntitone(c: nat, s: nat, t: nat)
    requires 1 <= s <= t
    ensures Quotient(c, t) <= Quotient(c, s)
  {
    hide Times, Quotient;
    QuotientBounds(c, t);
    LargerFactor(Quotient(c, t), s, t);
    QuotientAtLeast(c, s, Quotient(c, t));
  }

  // c = q * t + e with e below t leaves the quotient q; a larger e adds to it.
  lemma QuotientOf(c: nat, t: nat, q: nat, e: nat)
    requires t >= 1 && c == q * t + e
    ensures c / t >= q
    ensures c / t == q <==> e < t
  {
    assert (q + 1) * t == q * t + t;
    assert Quotient(c, t) == c / t;
    QuotientAtLeast(c, t, q);
    if e >= t {
      QuotientAtLeast(c, t, q + 1);
    } else {
      QuotientBounds(c, t);
      FactorAtMost(c / t, q, t, c);
    }
  }

  lemma NestedQuotient(n: nat, a: nat, b: nat)
    requires a > 0 && b > 0
    ensures a * b > 0 && n / a / b == n / (a * b)
  {
    var q, r := DivMod(n, a);
    var s, t := DivMod(q, b);
    TwoDigits(a, b, s, t, r);
    assert n == s * (a * b) + (a * t + r);
    QuotientOf(n, a * b, s, a * t + r);
  }

  lemma TwoDigits(a: nat, b: nat, s: nat, t: nat, r: nat)
    requires r < a && t < b
    ensures 0 < a * b && a * t + r < a * b
    ensures (s * b + t) * a + r == s * (a * b) + (a * t + r)
  {
    LargerFactor(a, t + 1, b);
    assert a * (t + 1) == a * t + a;
    assert (s * b + t) * a == s * b * a + t * a;
    assert s * b * a == s * (a * b);
  }

  lemma DivMul(a: nat, b: nat)
    requires b > 0
    ensures a * b / b == a
  {
    QuotientOf(a * b, b, a, 0);
  }

  lemma RemainderOf(x: nat, p: nat, q: nat, r: nat)
    requires r < p && x == q * p + r
    ensures x % p == r
  {
    QuotientOf(x, p, q, r);
    assert x == p * (x / p) + x % p;
    assert p * q == q * p;
  }

  // Adding a multiple of the modulus changes nothing.
  lemma ModShift(x: nat, k: nat, p: nat)
    requires p > 0
    ensures (x + k * p) % p == x % p
  {
    assert x == p * (x / p) + x % p;
    assert (x / p + k) * p == p * (x / p) + k * p;
    RemainderOf(x + k * p, p, x / p + k, x % p);
  }

  lemma ModSum(a: nat, b: nat, p: nat)
    requires p > 0
    ensures (a % p + b) % p == (a + b) % p
    ensures (a + b % p) % p == (a + b) % p
    ensures (a % p + b % p) % p == (a + b) % p
  {
    ModSumLeft(a, b, p);
    ModSumLeft(b, a, p);
    ModSumLeft(a, b % p, p);
  }

  lemma ModSumLeft(a: nat, b: nat, p: nat)
    requires p > 0
    ensures (a % p + b) % p == (a + b) % p
  {
    var q, r := DivMod(a, p);
    SameRemainder(r + b, a + b, q, p);
  }

  lemma DivMod(a: nat, p: nat) returns (q: nat, r: nat)
    requires p > 0
    ensures q == a / p && r == a % p && r < p && a == q * p + r
  {
    q, r := a / p, a % p;
    assert p * q == q * p;
  }

  lemma SameRemainder(x: nat, y: nat, k: nat, p: nat)
    requires p > 0 && y == x + k * p
    ensures y % p == x % p
  {
    ModShift(x, k, p);
  }

  lemma ModProduct(a: nat, b: nat, p: nat)
    requires p > 0
    ensures (a % p * b) % p == (a * b) % p
  {
    var q, r := DivMod(a, p);
    ProductShift(q, r, b, p);
    SameRemainder(r * b, a * b, q * b, p);
  }

  lemma ProductShift(q: nat, r: nat, b: nat, p: nat)
    ensures (q * p + r) * b == r * b + (q * b) * p
  {
    assert (q * p + r) * b == q * p * b + r * b;
    assert q * p * b == q * b * p;
  }
}
