/**
 The Montgomery ladder of quick_link.py (section 5 of RFC 7748), as the program runs it: registers
 updated in a loop, with the conditional swap of one bit deferred into the next. The modulus is a
 parameter, because nothing proved here depends on it; `ScalarMult` is the program's 2^255 - 19.
 */
module X25519 {
  import opened FieldArithmetic

  /** (x2, z2) or (x3, z3): the point with x-coordinate x/z. */
  datatype Pair = Pair(x: int, z: int)

  /** The doubling half of a ladder step, with the program's own intermediate values. */
  function Double(m: Modulus, p: Pair): Pair {
    var a := (p.x + p.z) % m;
    var aa := a * a % m;
    var b := (p.x - p.z) % m;
    var bb := b * b % m;
    var e := (aa - bb) % m;
    Pair(aa * bb % m, e * (aa + 121665 * e) % m)
  }

  /** The differential addition half: `x1` is the x-coordinate of the difference. */
  function DiffAdd(m: Modulus, p: Pair, q: Pair, x1: int): Pair {
    var a := (p.x + p.z) % m;
    var b := (p.x - p.z) % m;
    var c := (q.x + q.z) % m;
    var d := (q.x - q.z) % m;
    var da := d * a % m;
    var cb := c * b % m;
    Pair((da + cb) * (da + cb) % m, x1 * ((da - cb) * (da - cb)) % m)
  }

  function Pow2(n: nat): (r: nat)
    ensures 1 <= r
  {
    if n == 0 then 1 else 2 * Pow2(n - 1)
  }

  /** `k >> t` */
  function Shift(k: int, t: nat): (s: int)
    ensures 0 <= k ==> 0 <= s
  {
    var d := Pow2(t);
    QuotientSign(k, d);
    k / d
  }

  /** `(k >> t) & 1` */
  function Bit(k: int, t: nat): (b: int)
    ensures b == 0 || b == 1
  {
    Shift(k, t) % 2
  }

  /** The two register pairs, un-swapped, once the bits of k from `bits` - 1 down to `t` are consumed. */
  function Registers(m: Modulus, bits: nat, k: int, u: int, t: nat): (Pair, Pair)
    requires t <= bits
    decreases bits - t
  {
    if t == bits then (Pair(1, 0), Pair(u, 1))
    else
      var (p, q) := Registers(m, bits, k, u, t + 1);
      if Bit(k, t) == 0 then (Double(m, p), DiffAdd(m, p, q, u)) else (DiffAdd(m, q, p, u), Double(m, q))
  }

  /** `x2 * pow(z2, P - 2, P) % P` */
  function Affine(m: Modulus, p: Pair): int { p.x * PowMod(m, p.z, m - 2) % m }

  /** The body of the loop after the swap, register by register. */
  method Step(m: Modulus, u: int, p: Pair, q: Pair) returns (x2: int, z2: int, x3: int, z3: int)
    ensures Pair(x2, z2) == Double(m, p) && Pair(x3, z3) == DiffAdd(m, p, q, u)
  {
    var a := (p.x + p.z) % m;
    var aa := a * a % m;
    var b := (p.x - p.z) % m;
    var bb := b * b % m;
    var e := (aa - bb) % m;
    var c := (q.x + q.z) % m;
    var d := (q.x - q.z) % m;
    var da := d * a % m;
    var cb := c * b % m;
    x3 := (da + cb) * (da + cb) % m;
    z3 := u * ((da - cb) * (da - cb)) % m;
    x2 := aa * bb % m;
    z2 := e * (aa + 121665 * e) % m;
  }

  /** The loop of `_x25519`: it leaves the affine form of the ladder's first pair. */
  method Ladder(m: Modulus, bits: nat, k: int, u: int) returns (r: int)
    ensures r == Affine(m, Registers(m, bits, k, u, 0).0)
    ensures 0 <= r < m
  {
    var x2, z2, x3, z3, swap := 1, 0, u, 1, 0;
    var t := bits;
    while t > 0
      invariant 0 <= t <= bits
      invariant swap == if t == bits then 0 else Bit(k, t)
      invariant Registers(m, bits, k, u, t) ==
                if swap == 1 then (Pair(x3, z3), Pair(x2, z2)) else (Pair(x2, z2), Pair(x3, z3))
    {
      t := t - 1;
      var kt := Bit(k, t);
      swap := if swap == kt then 0 else 1;
      if swap == 1 {
        x2, x3 := x3, x2;
        z2, z3 := z3, z2;
      }
      swap := kt;
      x2, z2, x3, z3 := Step(m, u, Pair(x2, z2), Pair(x3, z3));
    }
    if swap == 1 {
      x2, x3 := x3, x2;
      z2, z3 := z3, z2;
    }
    r := x2 * PowMod(m, z2, m - 2) % m;
  }

  /** `_x25519`: the ladder over the field of 2^255 - 19 elements. */
  method ScalarMult(k: int, u: int) returns (r: int)
    ensures r == Affine(P, Registers(P, 255, k, u, 0).0)
    ensures 0 <= r < P
    ensures var p := Registers(P, 255, k, u, 0).0;
      (Inverted(P, p.z) ==> Shows(P, p, r)) && (Cong(P, p.z, 0) ==> r == 0)
  {
    r := Ladder(P, 255, k, u);
    AffineMeans(P, Registers(P, 255, k, u, 0).0);
  }

  // ----- the step computes the Montgomery formulas ---------------------------------------------

  /** The curve constant of section 4.1 of RFC 7748. */
  const A: int := 486662

  function Square(a: int): int { a * a }

  /** The x-only doubling formula for y^2 = x^3 + A x^2 + x, on integers. */
  function DoubleX(p: Pair): int { Square(p.x * p.x - p.z * p.z) }
  function DoubleZ(p: Pair): int { 4 * (p.x * p.z) * (p.x * p.x + A * (p.x * p.z) + p.z * p.z) }

  /** The x-only differential addition formula. */
  function AddX(p: Pair, q: Pair): int { 4 * Square(p.x * q.x - p.z * q.z) }
  function AddZ(p: Pair, q: Pair, x1: int): int { x1 * (4 * Square(q.x * p.z - p.x * q.z)) }

  lemma ProductOfSquares(a: int, b: int)
    ensures Square(a) * Square(b) == Square(a * b)
  {
    assert (a * a) * (b * b) == (a * b) * (a * b);
  }

  lemma SumAndDifference(x: int, z: int)
    ensures (x + z) * (x - z) == x * x - z * z
    ensures Square(x + z) == x * x + 2 * (x * z) + z * z
    ensures Square(x + z) - Square(x - z) == 4 * (x * z)
  {
  }

  lemma DoubleIsMontgomery(m: Modulus, p: Pair)
    ensures Cong(m, Double(m, p).x, DoubleX(p)) && Cong(m, Double(m, p).z, DoubleZ(p))
  {
    var a, b := (p.x + p.z) % m, (p.x - p.z) % m;
    var s, d := p.x + p.z, p.x - p.z;
    CongMod(m, s);
    CongMod(m, d);
    CongMul(m, a, s, a, s);
    CongMul(m, b, d, b, d);
    var aa, bb := a * a % m, b * b % m;
    CongMod(m, a * a);
    CongMod(m, b * b);
    DoubleFromSquares(m, p, aa, bb);
  }

  lemma DoubleFromSquares(m: Modulus, p: Pair, aa: int, bb: int)
    requires Cong(m, aa, Square(p.x + p.z)) && Cong(m, bb, Square(p.x - p.z))
    ensures Cong(m, aa * bb % m, DoubleX(p))
    ensures var e := (aa - bb) % m; Cong(m, e * (aa + 121665 * e) % m, DoubleZ(p))
  {
    var s, d, xz := p.x + p.z, p.x - p.z, 4 * (p.x * p.z);
    var e := (aa - bb) % m;
    SumAndDifference(p.x, p.z);
    ProductOfSquares(s, d);
    CongMul(m, aa, Square(s), bb, Square(d));
    CongMod(m, aa * bb);
    CongAdd(m, aa, Square(s), bb, Square(d));
    CongMod(m, aa - bb);
    assert Cong(m, e, xz);
    CongScale(m, 121665, e, xz);
    CongAdd(m, aa, Square(s), 121665 * e, 121665 * xz);
    assert Square(s) + 121665 * xz == p.x * p.x + A * (p.x * p.z) + p.z * p.z;
    CongMul(m, e, xz, aa + 121665 * e, p.x * p.x + A * (p.x * p.z) + p.z * p.z);
    CongMod(m, e * (aa + 121665 * e));
  }

  lemma CrossProducts(x2: int, z2: int, x3: int, z3: int)
    ensures (x3 - z3) * (x2 + z2) + (x3 + z3) * (x2 - z2) == 2 * (x2 * x3 - z2 * z3)
    ensures (x3 - z3) * (x2 + z2) - (x3 + z3) * (x2 - z2) == 2 * (x3 * z2 - x2 * z3)
  {
  }

  lemma DiffAddIsMontgomery(m: Modulus, p: Pair, q: Pair, x1: int)
    ensures Cong(m, DiffAdd(m, p, q, x1).x, AddX(p, q)) && Cong(m, DiffAdd(m, p, q, x1).z, AddZ(p, q, x1))
  {
    var a, b, c, d := (p.x + p.z) % m, (p.x - p.z) % m, (q.x + q.z) % m, (q.x - q.z) % m;
    CongMod(m, p.x + p.z);
    CongMod(m, p.x - p.z);
    CongMod(m, q.x + q.z);
    CongMod(m, q.x - q.z);
    CongMul(m, d, q.x - q.z, a, p.x + p.z);
    CongMul(m, c, q.x + q.z, b, p.x - p.z);
    CongMod(m, d * a);
    CongMod(m, c * b);
    CrossProducts(p.x, p.z, q.x, q.z);
    AddFromProducts(m, d * a % m, c * b % m, (q.x - q.z) * (p.x + p.z), (q.x + q.z) * (p.x - p.z),
                    p.x * q.x - p.z * q.z, q.x * p.z - p.x * q.z, x1);
  }

  lemma AddFromProducts(m: Modulus, da: int, cb: int, da': int, cb': int, s: int, t: int, x1: int)
    requires Cong(m, da, da') && Cong(m, cb, cb') && da' + cb' == 2 * s && da' - cb' == 2 * t
    ensures Cong(m, (da + cb) * (da + cb) % m, 4 * Square(s))
    ensures Cong(m, x1 * ((da - cb) * (da - cb)) % m, x1 * (4 * Square(t)))
  {
    CongAdd(m, da, da', cb, cb');
    CongMul(m, da + cb, 2 * s, da + cb, 2 * s);
    CongMul(m, da - cb, 2 * t, da - cb, 2 * t);
    assert (2 * s) * (2 * s) == 4 * Square(s) && (2 * t) * (2 * t) == 4 * Square(t);
    CongMod(m, (da + cb) * (da + cb));
    CongScale(m, x1, (da - cb) * (da - cb), 4 * Square(t));
    CongMod(m, x1 * ((da - cb) * (da - cb)));
  }

  ghost predicate PairCong(m: Modulus, p: Pair, q: Pair) { Cong(m, p.x, q.x) && Cong(m, p.z, q.z) }

  /** Which of its two arguments is ahead does not matter to the addition. */
  lemma DiffAddIsSymmetric(m: Modulus, p: Pair, q: Pair, x1: int)
    ensures PairCong(m, DiffAdd(m, p, q, x1), DiffAdd(m, q, p, x1))
  {
    DiffAddIsMontgomery(m, p, q, x1);
    DiffAddIsMontgomery(m, q, p, x1);
    var t := q.x * p.z - p.x * q.z;
    assert p.x * q.x - p.z * q.z == q.x * p.x - q.z * p.z && p.x * q.z - q.x * p.z == -t;
    assert (-t) * (-t) == t * t;
  }

  // ----- the ladder in an abelian group --------------------------------------------------------

  /** An abelian group written additively; the curve's own group law is one. */
  datatype Group<!G(!new)> = Group(zero: G, add: (G, G) -> G) {
    ghost predicate Commutes(a: G, b: G) { add(a, b) == add(b, a) }

    ghost predicate Associates(a: G, b: G, c: G) { add(add(a, b), c) == add(a, add(b, c)) }

    ghost predicate Neutral(a: G) { add(zero, a) == a }

    ghost predicate Abelian() {
      && (forall a, b :: Commutes(a, b))
      && (forall a, b, c :: Associates(a, b, c))
      && (forall a :: Neutral(a))
    }

    /** n·base */
    ghost function Times(n: nat, base: G): G {
      if n == 0 then zero else add(base, Times(n - 1, base))
    }
  }

  /**
   A relation `rep` between pairs of integers and the elements of a group: the pair represents the
   element. The two formulas are right for it when doubling doubles, when adding two elements that
   differ by `base` adds them, and when it does not matter which residues are carried.
   */
  datatype Model<!G(!new)> = Model(m: Modulus, bits: nat, g: Group<G>, rep: (Pair, G) -> bool, u: int, base: G) {
    ghost predicate Doubles(p: Pair, a: G) { rep(p, a) ==> rep(Double(m, p), g.add(a, a)) }

    ghost predicate Adds(p: Pair, q: Pair, a: G) {
      rep(p, a) && rep(q, g.add(base, a)) ==> rep(DiffAdd(m, p, q, u), g.add(a, g.add(base, a)))
    }

    ghost predicate SameResidues(p: Pair, q: Pair, a: G) { rep(p, a) && PairCong(m, p, q) ==> rep(q, a) }

    ghost predicate StepsAreRight() {
      && g.Abelian()
      && rep(Pair(1, 0), g.zero) && rep(Pair(u, 1), base)
      && (forall p, a :: Doubles(p, a))
      && (forall p, q, a :: Adds(p, q, a))
      && (forall p, q, a :: SameResidues(p, q, a))
    }
  }

  lemma {:induction false} TimesSum<G(!new)>(g: Group<G>, base: G, i: nat, j: nat)
    requires g.Abelian()
    ensures g.add(g.Times(i, base), g.Times(j, base)) == g.Times(i + j, base)
  {
    if i == 0 {
      assert g.Neutral(g.Times(j, base));
    } else {
      TimesSum(g, base, i - 1, j);
      assert g.Associates(base, g.Times(i - 1, base), g.Times(j, base));
    }
  }

  lemma ShiftIsBit(k: nat, t: nat)
    ensures Shift(k, t) == 2 * Shift(k, t + 1) + Bit(k, t)
  {
    HalfOfQuotient(k, Pow2(t));
  }

  lemma HalfOfQuotient(k: nat, d: nat)
    requires 0 < d
    ensures k / (2 * d) == k / d / 2
  {
    var q := k / d;
    var h, b := q / 2, q % 2;
    assert k == q * d + k % d;
    assert q * d == (2 * h + b) * d == h * (2 * d) + b * d;
    assert b == 0 || b == 1;
    QuotientIs(k, 2 * d, h, b * d + k % d);
  }

  /** Both formulas at once, on the multiples the ladder holds. */
  lemma StepRepresents<G(!new)>(s: Model<G>, n: nat, p: Pair, q: Pair)
    requires s.StepsAreRight()
    requires s.rep(p, s.g.Times(n, s.base)) && s.rep(q, s.g.Times(n + 1, s.base))
    ensures s.rep(Double(s.m, p), s.g.Times(2 * n, s.base))
    ensures s.rep(DiffAdd(s.m, p, q, s.u), s.g.Times(2 * n + 1, s.base))
    ensures s.rep(DiffAdd(s.m, q, p, s.u), s.g.Times(2 * n + 1, s.base))
    ensures s.rep(Double(s.m, q), s.g.Times(2 * n + 2, s.base))
  {
    var a, b := s.g.Times(n, s.base), s.g.Times(n + 1, s.base);
    TimesSum(s.g, s.base, n, n);
    TimesSum(s.g, s.base, n, n + 1);
    TimesSum(s.g, s.base, n + 1, n + 1);
    assert s.Doubles(p, a) && s.Doubles(q, b) && s.Adds(p, q, a);
    DiffAddIsSymmetric(s.m, p, q, s.u);
    assert s.SameResidues(DiffAdd(s.m, p, q, s.u), DiffAdd(s.m, q, p, s.u), s.g.Times(2 * n + 1, s.base));
  }

  /**
   After the bits down to t are consumed the two pairs represent n·base and (n+1)·base with n = k >> t,
   for every scalar and in every abelian group where the two formulas are right.
   */
  lemma {:induction false} LadderRepresents<G(!new)>(s: Model<G>, k: nat, t: nat)
    requires s.StepsAreRight() && k < Pow2(s.bits) && t <= s.bits
    ensures s.rep(Registers(s.m, s.bits, k, s.u, t).0, s.g.Times(Shift(k, t), s.base))
    ensures s.rep(Registers(s.m, s.bits, k, s.u, t).1, s.g.Times(Shift(k, t) + 1, s.base))
    decreases s.bits - t
  {
    if t == s.bits {
      QuotientIs(k, Pow2(t), 0, k);
      assert s.g.Commutes(s.base, s.g.zero) && s.g.Neutral(s.base);
      assert s.g.Times(1, s.base) == s.g.add(s.base, s.g.Times(0, s.base));
    } else {
      LadderRepresents(s, k, t + 1);
      ShiftIsBit(k, t);
      var (p, q) := Registers(s.m, s.bits, k, s.u, t + 1);
      StepRepresents(s, Shift(k, t + 1), p, q);
    }
  }

  /** The ladder multiplies: its first pair represents k·base. */
  lemma LadderMultiplies<G(!new)>(s: Model<G>, k: nat)
    requires s.StepsAreRight() && k < Pow2(s.bits)
    ensures s.rep(Registers(s.m, s.bits, k, s.u, 0).0, s.g.Times(k, s.base))
  {
    LadderRepresents(s, k, 0);
    assert Shift(k, 0) == k;
  }

  lemma {:induction false} Pow2Sum(a: nat, b: nat)
    ensures Pow2(a + b) == Pow2(a) * Pow2(b)
  {
    if a > 0 {
      Pow2Sum(a - 1, b);
    }
  }

  lemma Pow2Next(a: nat, v: nat)
    requires Pow2(a) == v
    ensures Pow2(2 * a + 1) == 2 * (v * v)
  {
    Pow2Sum(a, a);
    assert Pow2(2 * a + 1) == 2 * Pow2(a + a);
  }

  /** 2^255: the modulus is the prime the program computes from it. */
  lemma ModulusIsRight()
    ensures P == Pow2(255) - 19
  {
    Pow2Next(0, 1);
    Pow2Next(1, 2);
    Pow2Next(3, 8);
    Pow2Next(7, 0x80);
    Pow2Next(15, 0x8000);
    Pow2Next(31, 0x8000_0000);
    Pow2Next(63, 0x8000_0000_0000_0000);
    Pow2Next(127, 0x8000_0000_0000_0000_0000_0000_0000_0000);
  }

  // ----- the ladder is homogeneous -------------------------------------------------------------

  /** `q` is the same point as `p`, its coordinates multiplied by `c`. */
  ghost predicate Scaled(m: Modulus, p: Pair, q: Pair, c: int) { Cong(m, q.x, c * p.x) && Cong(m, q.z, c * p.z) }

  lemma ScaledProduct(m: Modulus, a: int, b: int, a': int, b': int, c: int, d: int)
    requires Cong(m, a', c * a) && Cong(m, b', d * b)
    ensures Cong(m, a' * b', (c * d) * (a * b))
  {
    CongMul(m, a', c * a, b', d * b);
    assert (c * a) * (d * b) == (c * d) * (a * b);
  }

  lemma ScaledSum(m: Modulus, a: int, b: int, a': int, b': int, c: int)
    requires Cong(m, a', c * a) && Cong(m, b', c * b)
    ensures Cong(m, a' + b', c * (a + b)) && Cong(m, a' - b', c * (a - b))
  {
    CongAdd(m, a', c * a, b', c * b);
    assert c * (a + b) == c * a + c * b && c * (a - b) == c * a - c * b;
  }

  lemma ScaledConstant(m: Modulus, n: int, a: int, a': int, c: int)
    requires Cong(m, a', c * a)
    ensures Cong(m, n * a', c * (n * a))
  {
    CongScale(m, n, a', c * a);
    assert n * (c * a) == c * (n * a);
  }

  lemma DoubleFormulaScales(m: Modulus, p: Pair, q: Pair, c: int)
    requires Scaled(m, p, q, c)
    ensures Cong(m, DoubleX(q), Square(Square(c)) * DoubleX(p)) && Cong(m, DoubleZ(q), Square(Square(c)) * DoubleZ(p))
  {
    var d := Square(c);
    var xx, zz, xz := p.x * p.x, p.z * p.z, p.x * p.z;
    var xx', zz', xz' := q.x * q.x, q.z * q.z, q.x * q.z;
    ScaledProduct(m, p.x, p.x, q.x, q.x, c, c);
    ScaledProduct(m, p.z, p.z, q.z, q.z, c, c);
    ScaledProduct(m, p.x, p.z, q.x, q.z, c, c);
    ScaledSum(m, xx, zz, xx', zz', d);
    ScaledConstant(m, A, xz, xz', d);
    ScaledConstant(m, 4, xz, xz', d);
    ScaledSum(m, xx, A * xz, xx', A * xz', d);
    ScaledSum(m, xx + A * xz, zz, xx' + A * xz', zz', d);
    ScaledProduct(m, xx - zz, xx - zz, xx' - zz', xx' - zz', d, d);
    ScaledProduct(m, 4 * xz, xx + A * xz + zz, 4 * xz', xx' + A * xz' + zz', d, d);
  }

  lemma DoubleIsHomogeneous(m: Modulus, p: Pair, q: Pair, c: int)
    requires Scaled(m, p, q, c)
    ensures Scaled(m, Double(m, p), Double(m, q), Square(Square(c)))
  {
    DoubleIsMontgomery(m, p);
    DoubleIsMontgomery(m, q);
    DoubleFormulaScales(m, p, q, c);
    CongScale(m, Square(Square(c)), Double(m, p).x, DoubleX(p));
    CongScale(m, Square(Square(c)), Double(m, p).z, DoubleZ(p));
  }

  lemma AddFormulaScales(m: Modulus, p: Pair, q: Pair, p': Pair, q': Pair, x1: int, c: int, d: int)
    requires Scaled(m, p, p', c) && Scaled(m, q, q', d)
    ensures Cong(m, AddX(p', q'), Square(c * d) * AddX(p, q))
    ensures Cong(m, AddZ(p', q', x1), Square(c * d) * AddZ(p, q, x1))
  {
    var n := c * d;
    ScaledProduct(m, p.x, q.x, p'.x, q'.x, c, d);
    ScaledProduct(m, p.z, q.z, p'.z, q'.z, c, d);
    ScaledProduct(m, q.x, p.z, q'.x, p'.z, d, c);
    ScaledProduct(m, p.x, q.z, p'.x, q'.z, c, d);
    assert d * c == n;
    ScaledSum(m, p.x * q.x, p.z * q.z, p'.x * q'.x, p'.z * q'.z, n);
    ScaledSum(m, q.x * p.z, p.x * q.z, q'.x * p'.z, p'.x * q'.z, n);
    var s, t := p.x * q.x - p.z * q.z, q.x * p.z - p.x * q.z;
    var s', t' := p'.x * q'.x - p'.z * q'.z, q'.x * p'.z - p'.x * q'.z;
    ScaledProduct(m, s, s, s', s', n, n);
    ScaledProduct(m, t, t, t', t', n, n);
    ScaledConstant(m, 4, Square(s), Square(s'), Square(n));
    ScaledConstant(m, 4, Square(t), Square(t'), Square(n));
    ScaledConstant(m, x1, 4 * Square(t), 4 * Square(t'), Square(n));
  }

  lemma DiffAddIsHomogeneous(m: Modulus, p: Pair, q: Pair, p': Pair, q': Pair, x1: int, c: int, d: int)
    requires Scaled(m, p, p', c) && Scaled(m, q, q', d)
    ensures Scaled(m, DiffAdd(m, p, q, x1), DiffAdd(m, p', q', x1), Square(c * d))
  {
    DiffAddIsMontgomery(m, p, q, x1);
    DiffAddIsMontgomery(m, p', q', x1);
    AddFormulaScales(m, p, q, p', q', x1, c, d);
    CongScale(m, Square(c * d), DiffAdd(m, p, q, x1).x, AddX(p, q));
    CongScale(m, Square(c * d), DiffAdd(m, p, q, x1).z, AddZ(p, q, x1));
  }

  /** The rest of the ladder, from bit t - 1 down, on any two register pairs. */
  function Rest(m: Modulus, k: int, u: int, t: nat, p: Pair, q: Pair): (Pair, Pair) {
    if t == 0 then (p, q)
    else if Bit(k, t - 1) == 0 then Rest(m, k, u, t - 1, Double(m, p), DiffAdd(m, p, q, u))
    else Rest(m, k, u, t - 1, DiffAdd(m, q, p, u), Double(m, q))
  }

  lemma {:induction false} RestFinishes(m: Modulus, bits: nat, k: int, u: int, t: nat)
    requires t <= bits
    ensures Rest(m, k, u, t, Registers(m, bits, k, u, t).0, Registers(m, bits, k, u, t).1)
            == Registers(m, bits, k, u, 0)
  {
    if t > 0 {
      RestFinishes(m, bits, k, u, t - 1);
    }
  }

  /** Scaling either pair, at any point of the loop, only scales the result. */
  lemma {:induction false} RestIsHomogeneous(
    m: Modulus, k: int, u: int, t: nat, p: Pair, q: Pair, p': Pair, q': Pair, c: int, d: int)
    returns (c': int)
    requires Scaled(m, p, p', c) && Scaled(m, q, q', d)
    ensures Scaled(m, Rest(m, k, u, t, p, q).0, Rest(m, k, u, t, p', q').0, c')
  {
    if t == 0 {
      c' := c;
    } else if Bit(k, t - 1) == 0 {
      DoubleIsHomogeneous(m, p, p', c);
      DiffAddIsHomogeneous(m, p, q, p', q', u, c, d);
      c' := RestIsHomogeneous(m, k, u, t - 1, Double(m, p), DiffAdd(m, p, q, u), Double(m, p'), DiffAdd(m, p', q', u),
                              Square(Square(c)), Square(c * d));
    } else {
      DiffAddIsHomogeneous(m, q, p, q', p', u, d, c);
      DoubleIsHomogeneous(m, q, q', d);
      c' := RestIsHomogeneous(m, k, u, t - 1, DiffAdd(m, q, p, u), Double(m, q), DiffAdd(m, q', p', u), Double(m, q'),
                              Square(d * c), Square(Square(d)));
    }
  }

  /** The two pairs have the same ratio x/z. */
  ghost predicate SameRatio(m: Modulus, p: Pair, q: Pair) { Cong(m, p.x * q.z, q.x * p.z) }

  lemma ScaledSameRatio(m: Modulus, p: Pair, q: Pair, c: int)
    requires Scaled(m, p, q, c)
    ensures SameRatio(m, p, q)
  {
    CongScale(m, p.x, q.z, c * p.z);
    CongMul(m, q.x, c * p.x, p.z, p.z);
    assert p.x * (c * p.z) == (c * p.x) * p.z;
  }

  /**
   Replace the registers, after any number of bits, by any other representatives of the same two
   points: the ladder's x2/z2 comes out the same.
   */
  lemma RatioIgnoresRepresentatives(
    m: Modulus, bits: nat, k: int, u: int, t: nat, p': Pair, q': Pair, c: int, d: int)
    requires t <= bits
    requires Scaled(m, Registers(m, bits, k, u, t).0, p', c) && Scaled(m, Registers(m, bits, k, u, t).1, q', d)
    ensures SameRatio(m, Registers(m, bits, k, u, 0).0, Rest(m, k, u, t, p', q').0)
  {
    RestFinishes(m, bits, k, u, t);
    var (p, q) := Registers(m, bits, k, u, t);
    var c' := RestIsHomogeneous(m, k, u, t, p, q, p', q', c, d);
    ScaledSameRatio(m, Registers(m, bits, k, u, 0).0, Rest(m, k, u, t, p', q').0, c');
  }

  lemma InverseOfScaled(m: Modulus, x: int, x': int, c: int, iz: int, iz': int, ic: int)
    requires Cong(m, x', c * x) && Cong(m, iz', ic * iz) && Cong(m, c * ic, 1)
    ensures Cong(m, x * iz, x' * iz')
  {
    CongMul(m, x', c * x, iz', ic * iz);
    assert (c * x) * (ic * iz) == (c * ic) * (x * iz);
    CongMul(m, c * ic, 1, x * iz, x * iz);
  }

  /** So does the value returned, wherever Fermat's little theorem gives the factor's inverse. */
  lemma ResultIgnoresRepresentatives(m: Modulus, p: Pair, q: Pair, c: int)
    requires Scaled(m, p, q, c) && Cong(m, c * PowMod(m, c, m - 2), 1)
    ensures Affine(m, p) == Affine(m, q)
  {
    var e: nat := m - 2;
    PowCong(m, q.z, c * p.z, e);
    PowMul(m, c, p.z, e);
    InverseOfScaled(m, p.x, q.x, c, PowMod(m, p.z, e), PowMod(m, q.z, e), PowMod(m, c, e));
  }

  // ----- the value returned --------------------------------------------------------------------

  /** The pair is a projective representative of the affine x-coordinate `x`. */
  ghost predicate Shows(m: Modulus, p: Pair, x: int) { Cong(m, p.x, x * p.z) }

  /** The power of z is its inverse: Fermat's little theorem for a prime m that does not divide z. */
  ghost predicate Inverted(m: Modulus, z: int) { Cong(m, z * PowMod(m, z, m - 2), 1) }

  /** The affine form of a pair is the x-coordinate it shows. */
  lemma AffineIsCoordinate(m: Modulus, p: Pair)
    requires Inverted(m, p.z)
    ensures Shows(m, p, Affine(m, p))
  {
    Undo(m, p.x, p.z, PowMod(m, p.z, m - 2), Affine(m, p));
  }

  lemma Undo(m: Modulus, x: int, z: int, i: int, a: int)
    requires Cong(m, z * i, 1) && a == x * i % m
    ensures Cong(m, x, a * z)
  {
    CongMod(m, x * i);
    CongScale(m, z, a, x * i);
    CongScale(m, x, z * i, 1);
    Swapped(x, z, i, a);
  }

  lemma Swapped(x: int, z: int, i: int, a: int)
    ensures z * (x * i) == x * (z * i) && z * a == a * z && x * 1 == x
  {
  }

  lemma CoordinateIsUnique(m: Modulus, p: Pair, x: int, x': int)
    requires Inverted(m, p.z) && Shows(m, p, x) && Shows(m, p, x')
    ensures Cong(m, x, x')
  {
    CongCancel(m, x, x', p.z, PowMod(m, p.z, m - 2));
  }

  /** What it takes for `xOf` to be the x-coordinate on a model: every pair with an inverse shows it. */
  ghost predicate ShowsElement<G(!new)>(s: Model<G>, xOf: G -> int, p: Pair, a: G) {
    s.rep(p, a) && Inverted(s.m, p.z) ==> Shows(s.m, p, xOf(a))
  }

  /** The value the ladder returns is the x-coordinate of k·base, for every scalar. */
  lemma LadderReturnsCoordinate<G(!new)>(s: Model<G>, xOf: G -> int, k: nat)
    requires s.StepsAreRight() && k < Pow2(s.bits)
    requires forall p, a :: ShowsElement(s, xOf, p, a)
    requires Inverted(s.m, Registers(s.m, s.bits, k, s.u, 0).0.z)
    ensures Cong(s.m, Affine(s.m, Registers(s.m, s.bits, k, s.u, 0).0), xOf(s.g.Times(k, s.base)))
  {
    var p := Registers(s.m, s.bits, k, s.u, 0).0;
    LadderMultiplies(s, k);
    assert ShowsElement(s, xOf, p, s.g.Times(k, s.base));
    AffineIsCoordinate(s.m, p);
    CoordinateIsUnique(s.m, p, Affine(s.m, p), xOf(s.g.Times(k, s.base)));
  }

  /** The point at infinity, z congruent to zero, is returned as zero (section 5 of RFC 7748). */
  lemma InfinityIsZero(m: Modulus, p: Pair)
    requires 2 < m && Cong(m, p.z, 0)
    ensures Affine(m, p) == 0
  {
    PowCong(m, p.z, 0, m - 2);
    assert PowMod(m, 0, m - 2) == 0;
    assert p.x * 0 == 0;
  }

  lemma AffineMeans(m: Modulus, p: Pair)
    requires 2 < m
    ensures Inverted(m, p.z) ==> Shows(m, p, Affine(m, p))
    ensures Cong(m, p.z, 0) ==> Affine(m, p) == 0
  {
    if Inverted(m, p.z) {
      AffineIsCoordinate(m, p);
    }
    if Cong(m, p.z, 0) {
      InfinityIsZero(m, p);
    }
  }
}
