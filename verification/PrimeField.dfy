/** Arithmetic modulo the prime order of the signature group. */
module PrimeField {

  ghost predicate IsPrime(q: int)
  {
    q >= 2 && forall d, e | 1 < d < q && 1 < e < q :: d * e != q
  }

  lemma ModIsUnique(x: int, d: int, r: int, q: int)
    requires 0 <= r < q && x == d * q + r
    ensures x % q == r && x / q == d
  {
    var e := x / q - d;
    assert e * q == r - x % q by {
      assert x == q * (x / q) + x % q;
      assert e * q == (x / q) * q - d * q;
    }
    assert e >= 1 ==> e * q >= q;
    assert e <= -1 ==> e * q <= -q;
  }

  /** Quotient and remainder, without the division operators in sight. */
  lemma Divide(x: int, q: int) returns (d: int, r: int)
    requires q > 0
    ensures x == q * d + r && 0 <= r < q && r == x % q
  {
    d, r := x / q, x % q;
  }

  lemma SameModMod(a: int, b: int, t: int, q: int)
    requires q > 0 && a == b + t * q
    ensures a % q == b % q
  {
    assert b == q * (b / q) + b % q;
    assert a == (b / q + t) * q + b % q;
    ModIsUnique(a, b / q + t, b % q, q);
  }

  /** A product may be reduced before multiplying. */
  lemma MulModRight(a: int, b: int, q: int)
    requires q > 0
    ensures (a * (b % q)) % q == (a * b) % q
  {
    assert b == q * (b / q) + b % q;
    assert a * b == a * (b % q) + (a * (b / q)) * q;
    SameModMod(a * b, a * (b % q), a * (b / q), q);
  }

  lemma AddMod(a: int, b: int, q: int)
    requires q > 0
    ensures (a % q + b % q) % q == (a + b) % q
  {
    assert a == q * (a / q) + a % q && b == q * (b / q) + b % q;
    assert a + b == a % q + b % q + (a / q + b / q) * q;
    SameModMod(a + b, a % q + b % q, a / q + b / q, q);
  }

  /** The multiplicative inverse modulo a prime, by the remainder recursion. */
  function Inverse(a: int, q: int): (y: int)
    requires 0 < a < q
    ensures 0 <= y < q
    decreases a
  {
    if a == 1 then 1
    else if q % a == 0 then 0
    else ((-(q / a)) * Inverse(q % a, q)) % q
  }

  lemma {:induction false} InverseCorrect(a: int, q: int)
    requires IsPrime(q) && 0 < a < q
    ensures (a * Inverse(a, q)) % q == 1
    decreases a
  {
    if a == 1 {
      ModIsUnique(1, 0, 1, q);
    } else {
      RemainderNonzero(a, q);
      InverseCorrect(q % a, q);
      InverseStep(a, Inverse(q % a, q), q);
    }
  }

  lemma RemainderNonzero(a: int, q: int)
    requires IsPrime(q) && 1 < a < q
    ensures 0 < q % a < a
  {
    if q % a == 0 {
      CofactorInRange(a, q / a, q);
      assert false;
    }
  }

  lemma CofactorInRange(a: int, k: int, q: int)
    requires 1 < a < q && q == a * k
    ensures 1 < k < q
  {
    if k <= 1 {
      MulMonotone(a, k, 1);
      assert false;
    }
    MulMonotone(k, 2, a);
  }

  lemma MulMonotone(a: int, b: int, c: int)
    requires 0 <= a && b <= c
    ensures a * b <= a * c
  {
  }

  /** With `q = a*k + r` and `r*y = 1 + t*q`, also `a*(-k*y) = 1 + (t - y)*q`. */
  lemma InverseStep(a: int, y: int, q: int)
    requires 1 < a < q && ((q % a) * y) % q == 1
    ensures (a * (((-(q / a)) * y) % q)) % q == 1
  {
    var k, r := q / a, q % a;
    var t := (r * y) / q;
    assert q == a * k + r;
    assert r * y == q * t + 1;
    MulModRight(a, (-k) * y, q);
    InverseProduct(a, k, r, y, t, q);
    SameModMod(a * ((-k) * y), 1, t - y, q);
    ModIsUnique(1, 0, 1, q);
  }

  lemma InverseProduct(a: int, k: int, r: int, y: int, t: int, q: int)
    requires q == a * k + r && r * y == q * t + 1
    ensures a * ((-k) * y) == 1 + (t - y) * q
  {
    assert a * ((-k) * y) == -(a * k) * y;
    assert -(a * k) == r - q;
    assert (r - q) * y == r * y - q * y;
    assert (t - y) * q == q * t - q * y;
  }
}
