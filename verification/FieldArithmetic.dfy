/**
 Arithmetic modulo m. `Cong` is equality of residues; it is kept by the ring operations. The ladder
 runs it at m = 2^255 - 19, but nothing here depends on the modulus.
 */
module FieldArithmetic {
  type Modulus = m: int | 1 < m witness 2

  /** The prime of RFC 7748, section 4.1: 2^255 - 19. */
  const P: Modulus := 57896044618658097711785492504343953926634992332820282019728792003956564819949

  ghost predicate Cong(m: Modulus, a: int, b: int) { a % m == b % m }

  // ----- division, by its quotient and remainder -----------------------------------------------

  /** A non-zero multiple of d is at least d away from zero. */
  lemma AtLeastOne(q: int, d: int)
    requires 0 <= d
    ensures 1 <= q ==> d <= q * d
    ensures q <= -1 ==> q * d <= -d
  {
    if 1 <= q {
      assert 0 <= (q - 1) * d;
      assert q * d == (q - 1) * d + d;
    } else if q <= -1 {
      assert (q + 1) * d <= 0;
      assert q * d == (q + 1) * d - d;
    }
  }

  lemma DivUnique(d: int, q: int, r: int, q': int, r': int)
    requires q * d + r == q' * d + r' && 0 <= r < d && 0 <= r' < d
    ensures q == q' && r == r'
  {
    AtLeastOne(q' - q, d);
    assert (q' - q) * d == q' * d - q * d;
  }

  lemma QuotientIs(k: int, d: int, q: int, r: int)
    requires k == q * d + r && 0 <= r < d
    ensures k / d == q && k % d == r
  {
    assert k == (k / d) * d + k % d;
    DivUnique(d, k / d, k % d, q, r);
  }

  lemma QuotientSign(k: int, d: int)
    requires 0 < d
    ensures 0 <= k ==> 0 <= k / d
  {
    AtLeastOne(k / d, d);
    assert k == (k / d) * d + k % d;
  }

  // ----- congruence ----------------------------------------------------------------------------

  lemma CongWitness(m: Modulus, a: int, b: int) returns (k: int)
    requires Cong(m, a, b)
    ensures a == b + k * m
  {
    k := a / m - b / m;
    assert a == (a / m) * m + a % m && b == (b / m) * m + b % m;
    assert k * m == (a / m) * m - (b / m) * m;
  }

  lemma CongFrom(m: Modulus, a: int, b: int, k: int)
    requires a == b + k * m
    ensures Cong(m, a, b)
  {
    assert b == (b / m) * m + b % m;
    assert (b / m + k) * m == (b / m) * m + k * m;
    QuotientIs(a, m, b / m + k, b % m);
  }

  lemma CongMod(m: Modulus, a: int)
    ensures Cong(m, a % m, a)
  {
    QuotientIs(a % m, m, 0, a % m);
  }

  lemma CongAdd(m: Modulus, a: int, a': int, b: int, b': int)
    requires Cong(m, a, a') && Cong(m, b, b')
    ensures Cong(m, a + b, a' + b') && Cong(m, a - b, a' - b')
  {
    var k := CongWitness(m, a, a');
    var l := CongWitness(m, b, b');
    assert (k + l) * m == k * m + l * m && (k - l) * m == k * m - l * m;
    CongFrom(m, a + b, a' + b', k + l);
    CongFrom(m, a - b, a' - b', k - l);
  }

  lemma ProductOfSums(a': int, k: int, b: int, b': int, l: int, m: int)
    requires b == b' + l * m
    ensures (a' + k * m) * b == a' * b' + (a' * l + k * b) * m
  {
    assert (a' + k * m) * b == a' * b + (k * b) * m;
    assert a' * b == a' * b' + (a' * l) * m;
    assert (a' * l + k * b) * m == (a' * l) * m + (k * b) * m;
  }

  lemma CongMul(m: Modulus, a: int, a': int, b: int, b': int)
    requires Cong(m, a, a') && Cong(m, b, b')
    ensures Cong(m, a * b, a' * b')
  {
    var k := CongWitness(m, a, a');
    var l := CongWitness(m, b, b');
    ProductOfSums(a', k, b, b', l, m);
    CongFrom(m, a * b, a' * b', a' * l + k * b);
  }

  lemma CongScale(m: Modulus, c: int, a: int, a': int)
    requires Cong(m, a, a')
    ensures Cong(m, c * a, c * a')
  {
    CongMul(m, c, c, a, a');
  }

  /** An invertible factor can be cancelled. */
  lemma CongCancel(m: Modulus, a: int, b: int, d: int, i: int)
    requires Cong(m, d * i, 1) && Cong(m, a * d, b * d)
    ensures Cong(m, a, b)
  {
    CongMul(m, a * d, b * d, i, i);
    CongScale(m, a, d * i, 1);
    CongScale(m, b, d * i, 1);
    assert a * d * i == a * (d * i) && b * d * i == b * (d * i);
  }

  // ----- powers: the three-argument `pow` ------------------------------------------------------

  /** b^e mod m */
  function PowMod(m: Modulus, b: int, e: nat): (r: int)
    ensures 0 <= r < m
  {
    if e == 0 then 1 else b * PowMod(m, b, e - 1) % m
  }

  lemma {:induction false} PowCong(m: Modulus, a: int, b: int, e: nat)
    requires Cong(m, a, b)
    ensures PowMod(m, a, e) == PowMod(m, b, e)
  {
    if e > 0 {
      PowCong(m, a, b, e - 1);
      CongMul(m, a, b, PowMod(m, a, e - 1), PowMod(m, b, e - 1));
    }
  }

  lemma {:induction false} PowMul(m: Modulus, a: int, b: int, e: nat)
    ensures Cong(m, PowMod(m, a * b, e), PowMod(m, a, e) * PowMod(m, b, e))
  {
    if e > 0 {
      PowMul(m, a, b, e - 1);
      PowMulStep(m, a, b, PowMod(m, a, e - 1), PowMod(m, b, e - 1), PowMod(m, a * b, e - 1));
    }
  }

  lemma PowMulStep(m: Modulus, a: int, b: int, pa: int, pb: int, pab: int)
    requires Cong(m, pab, pa * pb)
    ensures Cong(m, (a * b) * pab % m, (a * pa % m) * (b * pb % m))
  {
    CongScale(m, a * b, pab, pa * pb);
    assert (a * b) * (pa * pb) == (a * pa) * (b * pb);
    CongMod(m, a * pa);
    CongMod(m, b * pb);
    CongMul(m, a * pa % m, a * pa, b * pb % m, b * pb);
    CongMod(m, (a * b) * pab);
  }
}
