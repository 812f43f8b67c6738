/**
 Why the two formulas of the ladder are right: on the curve y^2 = x^3 + A x^2 + x they give the
 x-coordinates of the tangent and of the chord construction, modulo any m in which the slopes exist.
 */
module X25519Curve {
  import opened FieldArithmetic
  import opened X25519

  /** The right-hand side of the curve equation of section 4.1 of RFC 7748. */
  function Rhs(x: int): int { x * x * x + A * (x * x) + x }

  ghost predicate OnCurve(m: Modulus, x: int, y: int) { Cong(m, y * y, Rhs(x)) }

  lemma ShowsIsScaled(m: Modulus, p: Pair, x: int)
    requires Shows(m, p, x)
    ensures Scaled(m, Pair(x, 1), p, p.z)
  {
    assert x * p.z == p.z * x;
  }

  // ----- doubling ------------------------------------------------------------------------------

  lemma TangentPolynomial(x: int, c: int)
    ensures var t := 3 * (x * x) + 2 * c * x + 1;
      t * t - (c + 2 * x) * (4 * (x * x * x + c * (x * x) + x)) == (x * x - 1) * (x * x - 1)
  {
  }

  lemma TangentIdentity(x: int)
    ensures var t := 3 * (x * x) + 2 * A * x + 1; Square(t) - (A + 2 * x) * (4 * Rhs(x)) == Square(x * x - 1)
  {
    TangentPolynomial(x, A);
  }

  /** What the formulas give for affine points, where they must agree with `x`. */
  lemma ShowsFrom(m: Modulus, p: Pair, xx: int, zz: int, x: int)
    requires Cong(m, p.x, xx) && Cong(m, p.z, zz) && Cong(m, x * zz, xx)
    ensures Shows(m, p, x)
  {
    CongScale(m, x, p.z, zz);
  }

  lemma AffineDouble(x: int)
    ensures DoubleX(Pair(x, 1)) == Square(x * x - 1) && DoubleZ(Pair(x, 1)) == 4 * Rhs(x)
  {
    var p := Pair(x, 1);
    assert p.x * p.z == x && p.z * p.z == 1;
    RhsFactors(x);
    assert 4 * x * (x * x + A * x + 1) == 4 * (x * (x * x + A * x + 1));
  }

  lemma RhsFactors(x: int)
    ensures Rhs(x) == x * (x * x + A * x + 1)
  {
  }

  /** With slope l = (3x^2 + 2Ax + 1) / 2y the doubled point has x-coordinate l^2 - A - 2x. */
  lemma DoublingIsTangent(m: Modulus, p: Pair, x: int, y: int, l: int)
    requires OnCurve(m, x, y) && Shows(m, p, x)
    requires Cong(m, l * (2 * y), 3 * (x * x) + 2 * A * x + 1)
    ensures Shows(m, Double(m, p), l * l - A - 2 * x)
  {
    var one := Double(m, Pair(x, 1));
    TangentAbscissa(m, x, y, l);
    AffineDouble(x);
    DoubleIsMontgomery(m, Pair(x, 1));
    ShowsFrom(m, one, Square(x * x - 1), 4 * Rhs(x), l * l - A - 2 * x);
    ShowsIsScaled(m, p, x);
    DoubleIsHomogeneous(m, Pair(x, 1), p, p.z);
    ScaledShows(m, one, Double(m, p), Square(Square(p.z)), l * l - A - 2 * x);
  }

  lemma TangentAbscissa(m: Modulus, x: int, y: int, l: int)
    requires OnCurve(m, x, y) && Cong(m, l * (2 * y), 3 * (x * x) + 2 * A * x + 1)
    ensures Cong(m, (l * l - A - 2 * x) * (4 * Rhs(x)), Square(x * x - 1))
  {
    TangentIdentity(x);
    ChordAbscissa(m, A + 2 * x, 2 * y, l, 3 * (x * x) + 2 * A * x + 1);
    FourSquares(y);
    CongScale(m, 4, y * y, Rhs(x));
    var x' := l * l - (A + 2 * x);
    CongScale(m, x', (2 * y) * (2 * y), 4 * Rhs(x));
    CongScale(m, A + 2 * x, (2 * y) * (2 * y), 4 * Rhs(x));
    var t := 3 * (x * x) + 2 * A * x + 1;
    CongAdd(m, t * t, t * t, (A + 2 * x) * ((2 * y) * (2 * y)), (A + 2 * x) * (4 * Rhs(x)));
  }

  lemma FourSquares(y: int)
    ensures (2 * y) * (2 * y) == 4 * (y * y)
  {
  }

  /** A scaled pair shows the same x-coordinate. */
  lemma ScaledShows(m: Modulus, p: Pair, q: Pair, c: int, x: int)
    requires Scaled(m, p, q, c) && Shows(m, p, x)
    ensures Shows(m, q, x)
  {
    CongScale(m, c, p.x, x * p.z);
    CongScale(m, x, q.z, c * p.z);
    assert c * (x * p.z) == x * (c * p.z);
  }

  // ----- addition ------------------------------------------------------------------------------

  lemma ChordSum(a: int, b: int, c: int)
    ensures a * a * a + c * (a * a) + a + (b * b * b + c * (b * b) + b) - (c + a + b) * ((b - a) * (b - a))
            == (a + b) * (a * b + 1) + 2 * c * (a * b)
  {
  }

  lemma ChordProduct(a: int, b: int, c: int)
    ensures (a * a + c * a + 1) * (b * b + c * b + 1)
            == (a * b - 1) * (a * b - 1) + (a + b) * (a + b) + (c * ((a + b) * (a * b + 1)) + c * c * (a * b))
  {
  }

  lemma ChordDifference(p: int, q: int)
    ensures (p * (q + 1)) * (p * (q + 1)) - 4 * (q * ((q - 1) * (q - 1) + p * p)) == (q - 1) * (q - 1) * (p * p - 4 * q)
  {
  }

  lemma ChordRemainder(r: int, q: int, c: int)
    ensures (r + 2 * c * q) * (r + 2 * c * q) - 4 * (q * (c * r + c * c * q)) == r * r
  {
  }

  lemma Eliminate(sum: int, r: int, e: int, f: int, q: int, v: int, w: int, z: int)
    requires sum == r + e && f == q * (v + w)
    requires (r + e) * (r + e) - 4 * (q * w) == r * r && r * r - 4 * (q * v) == z
    ensures sum * sum - 4 * f == z
  {
    assert q * (v + w) == q * v + q * w;
  }

  /** The polynomial identity behind the differential addition. */
  lemma ChordIdentity(a: int, b: int)
    ensures Square(Rhs(a) + Rhs(b) - (A + a + b) * Square(b - a)) - 4 * (Rhs(a) * Rhs(b))
            == Square(a * b - 1) * Square(b - a)
  {
    var p, q := a + b, a * b;
    var r := p * (q + 1);
    var v, w := (q - 1) * (q - 1) + p * p, A * r + A * A * q;
    ChordSum(a, b, A);
    ChordDifference(p, q);
    ChordRemainder(r, q, A);
    RhsProduct(a, b);
    assert p * p - 4 * q == Square(b - a);
    Eliminate(Rhs(a) + Rhs(b) - (A + a + b) * Square(b - a), r, 2 * A * q, Rhs(a) * Rhs(b), q, v, w,
              (q - 1) * (q - 1) * (p * p - 4 * q));
  }

  lemma RhsProduct(a: int, b: int)
    ensures var p, q := a + b, a * b;
      Rhs(a) * Rhs(b) == q * ((q - 1) * (q - 1) + p * p + (A * (p * (q + 1)) + A * A * q))
  {
    var f, g := a * a + A * a + 1, b * b + A * b + 1;
    ChordProduct(a, b, A);
    RhsFactors(a);
    RhsFactors(b);
    FourFactors(a, f, b, g);
  }

  lemma FourFactors(a: int, f: int, b: int, g: int)
    ensures (a * f) * (b * g) == (a * b) * (f * g)
  {
  }

  /** A chord of slope l through the two points meets the curve again at x-coordinate l^2 - A - a - b. */
  lemma ChordAbscissa(m: Modulus, s: int, d: int, l: int, dy: int)
    requires Cong(m, l * d, dy)
    ensures Cong(m, (l * l - s) * (d * d), dy * dy - s * (d * d))
  {
    CongMul(m, l * d, dy, l * d, dy);
    assert (l * d) * (l * d) == (l * l) * (d * d);
    assert (l * l - s) * (d * d) == (l * l) * (d * d) - s * (d * d);
    CongAdd(m, (l * d) * (l * d), dy * dy, s * (d * d), s * (d * d));
  }

  lemma DifferenceOfSquares(ya: int, yb: int, k: int)
    ensures (Square(yb - ya) - k) * (Square(yb + ya) - k)
            == Square(ya * ya + yb * yb - k) - 4 * ((ya * ya) * (yb * yb))
  {
    var y, c := ya * ya + yb * yb - k, ya * yb;
    assert Square(yb - ya) - k == y - 2 * c && Square(yb + ya) - k == y + 2 * c;
    assert (y - 2 * c) * (y + 2 * c) == y * y - 4 * (c * c);
    ProductOfSquares(ya, yb);
  }

  lemma SumTimesDifference(m: Modulus, a: int, ya: int, b: int, yb: int)
    requires OnCurve(m, a, ya) && OnCurve(m, b, yb)
    ensures var k := (A + a + b) * Square(b - a);
      Cong(m, (Square(yb - ya) - k) * (Square(yb + ya) - k), Square(a * b - 1) * Square(b - a))
  {
    var k := (A + a + b) * Square(b - a);
    DifferenceOfSquares(ya, yb, k);
    ChordIdentity(a, b);
    SumFromRhs(m, ya * ya, Rhs(a), yb * yb, Rhs(b), k);
  }

  lemma SumFromRhs(m: Modulus, u: int, f: int, v: int, g: int, k: int)
    requires Cong(m, u, f) && Cong(m, v, g)
    ensures Cong(m, Square(u + v - k) - 4 * (u * v), Square(f + g - k) - 4 * (f * g))
  {
    CongAdd(m, u, f, v, g);
    CongAdd(m, u + v, f + g, k, k);
    CongMul(m, u + v - k, f + g - k, u + v - k, f + g - k);
    CongMul(m, u, f, v, g);
    CongScale(m, 4, u * v, f * g);
    CongAdd(m, Square(u + v - k), Square(f + g - k), 4 * (u * v), 4 * (f * g));
  }

  /**
   The chord through (a, ya) and (b, yb) has slope l, the one through (a, -ya) and (b, yb), whose
   third point is the difference, slope n. The x-coordinates of sum and difference satisfy the
   relation the addition formula solves.
   */
  lemma SumAndDifferenceAbscissas(m: Modulus, a: int, ya: int, b: int, yb: int, l: int, n: int, i: int)
    requires OnCurve(m, a, ya) && OnCurve(m, b, yb) && Cong(m, (b - a) * i, 1)
    requires Cong(m, l * (b - a), yb - ya) && Cong(m, n * (b - a), yb + ya)
    ensures var s := A + a + b; Cong(m, (l * l - s) * ((n * n - s) * Square(b - a)), Square(a * b - 1))
  {
    var s, d := A + a + b, b - a;
    var xs, x1, dd := l * l - s, n * n - s, Square(d);
    ChordAbscissa(m, s, d, l, yb - ya);
    ChordAbscissa(m, s, d, n, yb + ya);
    SumTimesDifference(m, a, ya, b, yb);
    CongMul(m, xs * dd, Square(yb - ya) - s * dd, x1 * dd, Square(yb + ya) - s * dd);
    assert (xs * dd) * (x1 * dd) == (xs * (x1 * dd)) * dd;
    CongMul(m, d * i, 1, d * i, 1);
    assert (d * i) * (d * i) == dd * (i * i);
    CongCancel(m, xs * (x1 * dd), Square(a * b - 1), dd, i * i);
  }

  lemma AffineAdd(a: int, b: int, x1: int)
    ensures AddX(Pair(a, 1), Pair(b, 1)) == 4 * Square(a * b - 1)
    ensures AddZ(Pair(a, 1), Pair(b, 1), x1) == x1 * (4 * Square(b - a))
  {
    assert b * 1 == b && a * 1 == a;
  }

  lemma FourTimes(m: Modulus, xs: int, x1: int, dd: int, r: int)
    requires Cong(m, xs * (x1 * dd), r)
    ensures Cong(m, xs * (x1 * (4 * dd)), 4 * r)
  {
    CongScale(m, 4, xs * (x1 * dd), r);
    assert 4 * (xs * (x1 * dd)) == xs * (x1 * (4 * dd));
  }

  /** DiffAdd, told the x-coordinate of the difference, yields that of the sum. */
  lemma DiffAddIsChord(m: Modulus, p: Pair, q: Pair, a: int, ya: int, b: int, yb: int, l: int, n: int, i: int)
    requires OnCurve(m, a, ya) && OnCurve(m, b, yb) && Cong(m, (b - a) * i, 1)
    requires Cong(m, l * (b - a), yb - ya) && Cong(m, n * (b - a), yb + ya)
    requires Shows(m, p, a) && Shows(m, q, b)
    ensures Shows(m, DiffAdd(m, p, q, n * n - (A + a + b)), l * l - (A + a + b))
  {
    var xs, x1 := l * l - (A + a + b), n * n - (A + a + b);
    SumAndDifferenceAbscissas(m, a, ya, b, yb, l, n, i);
    ChordFormula(m, p, q, a, b, xs, x1);
  }

  lemma ChordFormula(m: Modulus, p: Pair, q: Pair, a: int, b: int, xs: int, x1: int)
    requires Shows(m, p, a) && Shows(m, q, b)
    requires Cong(m, xs * (x1 * Square(b - a)), Square(a * b - 1))
    ensures Shows(m, DiffAdd(m, p, q, x1), xs)
  {
    var one := DiffAdd(m, Pair(a, 1), Pair(b, 1), x1);
    AffineAdd(a, b, x1);
    DiffAddIsMontgomery(m, Pair(a, 1), Pair(b, 1), x1);
    FourTimes(m, xs, x1, Square(b - a), Square(a * b - 1));
    ShowsFrom(m, one, 4 * Square(a * b - 1), x1 * (4 * Square(b - a)), xs);
    ShowsIsScaled(m, p, a);
    ShowsIsScaled(m, q, b);
    DiffAddIsHomogeneous(m, Pair(a, 1), Pair(b, 1), p, q, x1, p.z, q.z);
    ScaledShows(m, one, DiffAdd(m, p, q, x1), Square(p.z * q.z), xs);
  }
}
