/**
 * The quaternion algebra of `ensiie::Quaternion` as pure values over `real`.
 *
 * A quaternion t + u·i + v·j + w·k is the value Quat(t, u, v, w). Every
 * operation of the C++ class is a closed-form formula in these four
 * components; this module states those formulas once and proves what they
 * mean. The class in module Quaternions mutates objects step by step and
 * is proved against the functions here.
 */
module QuaternionAlgebra {

  datatype Quat = Quat(t: real, u: real, v: real, w: real)

  /** The outcome of an operation that may raise the division error. */
  datatype Outcome<T> = Ok(value: T) | DivisionByZero

  /** Both division tests of the source compare against this constant. */
  const Threshold: real := 1.0e-15

  // ---------------------------------------------------------------------
  // Construction
  // ---------------------------------------------------------------------

  /** The null quaternion 0 + 0i + 0j + 0k (zero-argument constructor). */
  function Null(): Quat { Quat(0.0, 0.0, 0.0, 0.0) }

  /** The real embedding x + 0i + 0j + 0k (one-argument constructor). */
  function FromReal(x: real): Quat { Quat(x, 0.0, 0.0, 0.0) }

  /** The complex embedding x + yi + 0j + 0k (two-argument constructor). */
  function FromComplex(x: real, y: real): Quat { Quat(x, y, 0.0, 0.0) }

  /** The multiplicative identity 1 + 0i + 0j + 0k. */
  function Identity(): Quat { Quat(1.0, 0.0, 0.0, 0.0) }

  // The three imaginary units, used to state the sign pattern of the product.
  function I(): Quat { Quat(0.0, 1.0, 0.0, 0.0) }
  function J(): Quat { Quat(0.0, 0.0, 1.0, 0.0) }
  function K(): Quat { Quat(0.0, 0.0, 0.0, 1.0) }

  // ---------------------------------------------------------------------
  // The operations
  // ---------------------------------------------------------------------

  /** t² + u² + v² + w², the square of the norm. */
  function NormSq(q: Quat): (r: real)
    ensures r >= 0.0
  {
    var r := q.t * q.t + q.u * q.u + q.v * q.v + q.w * q.w;
    SumOfSquares(q.t, q.u, q.v, q.w, r);
    r
  }

  /** `n` is the norm of `q`: the non-negative square root of NormSq(q). */
  predicate IsNorm(q: Quat, n: real) {
    0.0 <= n && n * n == NormSq(q)
  }

  function Conj(q: Quat): Quat { Quat(q.t, -q.u, -q.v, -q.w) }

  function Neg(q: Quat): Quat { Quat(-q.t, -q.u, -q.v, -q.w) }

  function Add(p: Quat, q: Quat): Quat { Quat(p.t + q.t, p.u + q.u, p.v + q.v, p.w + q.w) }

  function Sub(p: Quat, q: Quat): Quat { Quat(p.t - q.t, p.u - q.u, p.v - q.v, p.w - q.w) }

  /** Every component multiplied by the scalar `x`. */
  function Scale(q: Quat, x: real): Quat { Quat(q.t * x, q.u * x, q.v * x, q.w * x) }

  /**
   * The four components of the Hamilton product p·q. Each is one
   * assignment line of `*=`, with p the saved receiver and q the argument.
   */
  function MulT(p: Quat, q: Quat): real { p.t * q.t - p.u * q.u - p.v * q.v - p.w * q.w }
  function MulU(p: Quat, q: Quat): real { p.t * q.u + p.u * q.t + p.v * q.w - p.w * q.v }
  function MulV(p: Quat, q: Quat): real { p.t * q.v - p.u * q.w + p.v * q.t + p.w * q.u }
  function MulW(p: Quat, q: Quat): real { p.t * q.w + p.u * q.v - p.v * q.u + p.w * q.t }

  /** The Hamilton product p·q. */
  function Mul(p: Quat, q: Quat): Quat {
    Quat(MulT(p, q), MulU(p, q), MulV(p, q), MulW(p, q))
  }

  /**
   * The closed form of quaternion division: four cross terms, each divided
   * by the squared norm of the divisor. It is q⁻¹·p (left division), see
   * QuotientIsConjugateProduct.
   */
  function Quotient(p: Quat, q: Quat): Quat
    requires NormSq(q) != 0.0
  {
    Quat(QuotientT(p, q), QuotientU(p, q), QuotientV(p, q), QuotientW(p, q))
  }

  /**
   * The four components of Quotient(p, q). Each is one assignment line of
   * `/=`, with p the saved receiver and q the argument.
   */
  function QuotientT(p: Quat, q: Quat): real
    requires NormSq(q) != 0.0
  {
    (p.t * q.t + p.u * q.u + p.v * q.v + p.w * q.w) / NormSq(q)
  }

  function QuotientU(p: Quat, q: Quat): real
    requires NormSq(q) != 0.0
  {
    (p.u * q.t - p.t * q.u - p.w * q.v + p.v * q.w) / NormSq(q)
  }

  function QuotientV(p: Quat, q: Quat): real
    requires NormSq(q) != 0.0
  {
    (p.v * q.t + p.w * q.u - p.t * q.v - p.u * q.w) / NormSq(q)
  }

  function QuotientW(p: Quat, q: Quat): real
    requires NormSq(q) != 0.0
  {
    (p.w * q.t - p.v * q.u + p.u * q.v - p.t * q.w) / NormSq(q)
  }

  /**
   * Quaternion division with its failure test: the source refuses a divisor
   * whose norm is at most Threshold, that is (NormThreshold) whose squared
   * norm is at most Threshold².
   */
  function Divide(p: Quat, q: Quat): Outcome<Quat> {
    if NormSq(q) <= Threshold * Threshold then DivisionByZero else Ok(Quotient(p, q))
  }

  /**
   * Scalar division as written: the raw divisor is compared with Threshold,
   * so zero and every negative divisor fail.
   */
  function ScalarDiv(q: Quat, x: real): (r: Outcome<Quat>)
    ensures r.DivisionByZero? <==> x <= Threshold
    ensures r.Ok? ==> Scale(r.value, x) == q && r.value == Scale(q, 1.0 / x)
  {
    if x <= Threshold then DivisionByZero else
      var r := Quat(q.t / x, q.u / x, q.v / x, q.w / x);
      DivIsMulReciprocal(q.t, x, r.t);
      DivIsMulReciprocal(q.u, x, r.u);
      DivIsMulReciprocal(q.v, x, r.v);
      DivIsMulReciprocal(q.w, x, r.w);
      Ok(r)
  }

  // ---------------------------------------------------------------------
  // Squares of reals
  //
  // Each lemma names the product it speaks about (`requires s == x * x`),
  // so a caller passes the squared norm or a component product as `s` and
  // receives a fact about that term directly.
  // ---------------------------------------------------------------------

  lemma MulPositive(x: real, y: real, p: real)
    requires p == x * y
    requires 0.0 < x && 0.0 < y
    ensures 0.0 < p
  {
  }

  lemma SquarePositive(x: real, s: real)
    requires s == x * x
    requires x != 0.0
    ensures 0.0 < s
  {
    if x < 0.0 {
      MulPositive(-x, -x, s);
    } else {
      MulPositive(x, x, s);
    }
  }

  lemma SquareZero(x: real, s: real)
    requires s == x * x
    ensures s == 0.0 <==> x == 0.0
  {
    if x != 0.0 {
      SquarePositive(x, s);
    }
  }

  lemma DivideBySelf(x: real, q: real)
    requires x != 0.0
    requires q == x / x
    ensures q == 1.0
  {
  }

  lemma DivIsMulReciprocal(a: real, x: real, q: real)
    requires x != 0.0
    requires q == a / x
    ensures q == a * (1.0 / x)
  {
  }

  lemma QuotientNonZero(a: real, d: real, r: real)
    requires a != 0.0 && d != 0.0
    requires r == a / d
    ensures r != 0.0
  {
  }

  /** A sum of four squares is non-negative, and zero only when every term is. */
  lemma SumOfSquares(a: real, b: real, c: real, d: real, s: real)
    requires s == a * a + b * b + c * c + d * d
    ensures 0.0 <= s
    ensures s == 0.0 <==> a == 0.0 && b == 0.0 && c == 0.0 && d == 0.0
  {
    var a2, b2, c2, d2 := a * a, b * b, c * c, d * d;
    if a != 0.0 { SquarePositive(a, a2); }
    if b != 0.0 { SquarePositive(b, b2); }
    if c != 0.0 { SquarePositive(c, c2); }
    if d != 0.0 { SquarePositive(d, d2); }
  }

  /** On non-negative reals squaring is strictly increasing. */
  lemma SquareMonotone(a: real, b: real)
    requires 0.0 <= a < b
    ensures a * a < b * b
  {
    MulPositive(b - a, b + a, b * b - a * a);
  }

  /** Non-negative reals compare as their squares do. */
  lemma SquaresOrdered(a: real, b: real)
    requires 0.0 <= a && 0.0 <= b
    ensures a <= b <==> a * a <= b * b
    ensures a == b <==> a * a == b * b
  {
    if a < b {
      SquareMonotone(a, b);
    } else if b < a {
      SquareMonotone(b, a);
    }
  }

  // ---------------------------------------------------------------------
  // Norm
  // ---------------------------------------------------------------------

  /** The squared norm vanishes exactly at the null quaternion. */
  lemma NormSqZero(q: Quat)
    ensures NormSq(q) == 0.0 <==> q == Null()
  {
    SumOfSquares(q.t, q.u, q.v, q.w, NormSq(q));
  }

  /** A quaternion has at most one norm. */
  lemma NormUnique(q: Quat, n: real, m: real)
    requires IsNorm(q, n) && IsNorm(q, m)
    ensures n == m
  {
    SquaresOrdered(n, m);
  }

  /** The norm is zero exactly at the null quaternion. */
  lemma NormZero(q: Quat, n: real)
    requires IsNorm(q, n)
    ensures n == 0.0 <==> q == Null()
  {
    NormSqZero(q);
    SquareZero(n, NormSq(q));
  }

  /** The test `norm <= 1e-15` is the test `t²+u²+v²+w² <= 1e-30`. */
  lemma NormThreshold(q: Quat, n: real)
    requires IsNorm(q, n)
    ensures n <= Threshold <==> NormSq(q) <= Threshold * Threshold
  {
    SquaresOrdered(n, Threshold);
  }

  // ---------------------------------------------------------------------
  // Additive structure
  // ---------------------------------------------------------------------

  /** Addition is commutative and associative with the null quaternion as identity. */
  lemma AddLaws(p: Quat, q: Quat, r: Quat)
    ensures Add(p, Null()) == p && Add(Null(), p) == p
    ensures Add(p, q) == Add(q, p)
    ensures Add(Add(p, q), r) == Add(p, Add(q, r))
    ensures Sub(p, q) == Add(p, Neg(q))
  {
  }

  /** Unary minus is an involution and gives the additive inverse. */
  lemma NegLaws(q: Quat)
    ensures Neg(Neg(q)) == q
    ensures Add(q, Neg(q)) == Null()
    ensures Neg(q) == Mul(FromReal(-1.0), q)
  {
  }

  /** Conjugation keeps t, negates u, v, w, and undoes itself. */
  lemma ConjInvolution(q: Quat)
    ensures Conj(Conj(q)) == q
    ensures Add(q, Conj(q)) == FromReal(2.0 * q.t)
  {
  }

  // ---------------------------------------------------------------------
  // Multiplicative structure
  // ---------------------------------------------------------------------

  /** Identity() is a two-sided unit of the Hamilton product. */
  lemma MulIdentity(q: Quat)
    ensures Mul(q, Identity()) == q
    ensures Mul(Identity(), q) == q
  {
  }

  // Hamilton's rules, one product of units per lemma: a single proof goal
  // holding two or more of these literal products runs out of resource.

  lemma UnitIJ() ensures Mul(I(), J()) == K() {}
  lemma UnitJI() ensures Mul(J(), I()) == Neg(K()) {}
  lemma UnitJK() ensures Mul(J(), K()) == I() {}
  lemma UnitKJ() ensures Mul(K(), J()) == Neg(I()) {}
  lemma UnitKI() ensures Mul(K(), I()) == J() {}
  lemma UnitIK() ensures Mul(I(), K()) == Neg(J()) {}
  lemma UnitII() ensures Mul(I(), I()) == FromReal(-1.0) {}
  lemma UnitJJ() ensures Mul(J(), J()) == FromReal(-1.0) {}
  lemma UnitKK() ensures Mul(K(), K()) == FromReal(-1.0) {}

  /**
   * The product follows Hamilton's rules i² = j² = k² = −1, ij = k,
   * jk = i, ki = j, and reversing the order of two distinct units flips
   * the sign.
   */
  lemma HamiltonRules()
    ensures Mul(I(), I()) == Mul(J(), J()) == Mul(K(), K()) == FromReal(-1.0)
    ensures Mul(I(), J()) == K() && Mul(J(), I()) == Neg(K())
    ensures Mul(J(), K()) == I() && Mul(K(), J()) == Neg(I())
    ensures Mul(K(), I()) == J() && Mul(I(), K()) == Neg(J())
  {
    UnitII(); UnitJJ(); UnitKK();
    UnitIJ(); UnitJI();
    UnitJK(); UnitKJ();
    UnitKI(); UnitIK();
  }

  /** ijk = −1. */
  lemma HamiltonTriple()
    ensures Mul(Mul(I(), J()), K()) == FromReal(-1.0)
  {
    UnitIJ();
    UnitKK();
  }

  /** The product is not commutative: ij ≠ ji. */
  lemma MulNotCommutative()
    ensures Mul(I(), J()) != Mul(J(), I())
  {
    UnitIJ();
    UnitJI();
  }

  /** The Hamilton product is associative. */
  lemma MulAssociative(p: Quat, q: Quat, r: Quat)
    ensures Mul(Mul(p, q), r) == Mul(p, Mul(q, r))
  {
  }

  /** The product distributes over addition from the left. */
  lemma MulDistributesLeft(p: Quat, q: Quat, r: Quat)
    ensures Mul(p, Add(q, r)) == Add(Mul(p, q), Mul(p, r))
  {
  }

  /** The product distributes over addition from the right. */
  lemma MulDistributesRight(p: Quat, q: Quat, r: Quat)
    ensures Mul(Add(p, q), r) == Add(Mul(p, r), Mul(q, r))
  {
  }

  /** Scaling by x is multiplication by the real quaternion x, on either side. */
  lemma ScaleIsRealProduct(q: Quat, x: real)
    ensures Scale(q, x) == Mul(q, FromReal(x))
    ensures Scale(q, x) == Mul(FromReal(x), q)
  {
  }

  /** Scaling commutes with the product. */
  lemma MulScale(p: Quat, q: Quat, x: real)
    ensures Mul(p, Scale(q, x)) == Scale(Mul(p, q), x)
    ensures Mul(Scale(p, x), q) == Scale(Mul(p, q), x)
  {
    ScaleIsRealProduct(q, x);
    ScaleIsRealProduct(p, x);
    ScaleIsRealProduct(Mul(p, q), x);
    MulAssociative(p, q, FromReal(x));
    MulAssociative(FromReal(x), p, q);
  }

  /** The real and complex embeddings respect the product of reals and of complex numbers. */
  lemma EmbeddingsAreHomomorphisms(a: real, b: real, c: real, d: real)
    ensures Mul(FromReal(a), FromReal(c)) == FromReal(a * c)
    ensures Mul(FromComplex(a, b), FromComplex(c, d)) == FromComplex(a * c - b * d, a * d + b * c)
  {
  }

  /** Conjugation reverses products. */
  lemma ConjOfProduct(p: Quat, q: Quat)
    ensures Conj(Mul(p, q)) == Mul(Conj(q), Conj(p))
  {
  }

  /** A quaternion times its conjugate is its squared norm, on either side. */
  lemma MulConj(q: Quat)
    ensures Mul(q, Conj(q)) == FromReal(NormSq(q))
    ensures Mul(Conj(q), q) == FromReal(NormSq(q))
  {
  }

  /** Scaling by x and then by 1/x gives back the original quaternion. */
  lemma ScaleInverse(q: Quat, x: real)
    requires x != 0.0
    ensures Scale(Scale(q, x), 1.0 / x) == q
  {
  }

  // ---------------------------------------------------------------------
  // Division
  // ---------------------------------------------------------------------

  /** Quotient(p, q) is conj(q)·p / |q|²: the divisor multiplies from the left. */
  lemma QuotientIsConjugateProduct(p: Quat, q: Quat)
    requires NormSq(q) != 0.0
    ensures Quotient(p, q) == Scale(Mul(Conj(q), p), 1.0 / NormSq(q))
  {
  }

  /** Quotient(p, q) solves q·x = p: it undoes multiplication by q from the left. */
  lemma QuotientSolvesLeft(p: Quat, q: Quat)
    requires NormSq(q) != 0.0
    ensures Mul(q, Quotient(p, q)) == p
  {
    var d := NormSq(q);
    QuotientIsConjugateProduct(p, q);
    calc {
      Mul(q, Quotient(p, q));
      Mul(q, Scale(Mul(Conj(q), p), 1.0 / d));
      { MulScale(q, Mul(Conj(q), p), 1.0 / d); }
      Scale(Mul(q, Mul(Conj(q), p)), 1.0 / d);
      { MulAssociative(q, Conj(q), p); MulConj(q); }
      Scale(Mul(FromReal(d), p), 1.0 / d);
      { ScaleIsRealProduct(p, d); }
      Scale(Scale(p, d), 1.0 / d);
      { ScaleInverse(p, d); }
      p;
    }
  }

  /** Dividing q·p by q gives back p: the division round trip. */
  lemma QuotientRoundTrip(p: Quat, q: Quat)
    requires NormSq(q) != 0.0
    ensures Quotient(Mul(q, p), q) == p
  {
    var d := NormSq(q);
    calc {
      Quotient(Mul(q, p), q);
      { QuotientIsConjugateProduct(Mul(q, p), q); }
      Scale(Mul(Conj(q), Mul(q, p)), 1.0 / d);
      { MulAssociative(Conj(q), q, p); MulConj(q); }
      Scale(Mul(FromReal(d), p), 1.0 / d);
      { ScaleIsRealProduct(p, d); }
      Scale(Scale(p, d), 1.0 / d);
      { ScaleInverse(p, d); }
      p;
    }
  }

  /** q / q is the identity for every non-null q. */
  lemma QuotientSelf(q: Quat)
    requires NormSq(q) != 0.0
    ensures Quotient(q, q) == Identity()
  {
    var d := NormSq(q);
    calc {
      Quotient(q, q);
      { QuotientIsConjugateProduct(q, q); }
      Scale(Mul(Conj(q), q), 1.0 / d);
      { MulConj(q); }
      Scale(FromReal(d), 1.0 / d);
    }
    assert d * (1.0 / d) == 1.0;
  }

  /**
   * Because division is from the left, the right-division round trip
   * (p·q)/q == p holds exactly when p and q commute.
   */
  lemma RightRoundTrip(p: Quat, q: Quat)
    requires NormSq(q) != 0.0
    ensures Quotient(Mul(p, q), q) == p <==> Mul(p, q) == Mul(q, p)
  {
    if Mul(p, q) == Mul(q, p) {
      QuotientRoundTrip(p, q);
    }
    if Quotient(Mul(p, q), q) == p {
      QuotientSolvesLeft(Mul(p, q), q);
    }
  }

  /** Division fails exactly for a divisor of norm at most Threshold, and otherwise solves q·x = p. */
  lemma DivideSpec(p: Quat, q: Quat, n: real)
    requires IsNorm(q, n)
    ensures Divide(p, q).DivisionByZero? <==> n <= Threshold
    ensures Divide(p, q).Ok? ==> Mul(q, Divide(p, q).value) == p
    ensures Divide(p, q).Ok? ==> Divide(Mul(q, p), q) == Ok(p) && Divide(q, q) == Ok(Identity())
  {
    NormThreshold(q, n);
    if Divide(p, q).Ok? {
      QuotientSolvesLeft(p, q);
      QuotientRoundTrip(p, q);
      QuotientSelf(q);
    }
  }

  // ---------------------------------------------------------------------
  // Inverse: as written, and corrected
  // ---------------------------------------------------------------------

  /**
   * `inverse()` as written: the conjugate scalar-divided by the norm `n`
   * (not by its square).
   */
  function InverseAsWritten(q: Quat, n: real): Outcome<Quat>
    requires IsNorm(q, n)
  {
    ScalarDiv(Conj(q), n)
  }

  /**
   * What `inverse()` really yields: it fails exactly when the norm is at
   * most Threshold, and otherwise q·r and r·q are the real quaternion n,
   * which is the identity only for a unit quaternion.
   */
  lemma InverseAsWrittenProduct(q: Quat, n: real)
    requires IsNorm(q, n)
    ensures InverseAsWritten(q, n).DivisionByZero? <==> NormSq(q) <= Threshold * Threshold
    ensures InverseAsWritten(q, n).Ok? ==>
      var r := InverseAsWritten(q, n).value;
      Mul(q, r) == FromReal(n) && Mul(r, q) == FromReal(n) &&
      (Mul(q, r) == Identity() <==> n == 1.0)
  {
    NormThreshold(q, n);
    if n > Threshold {
      var r := InverseAsWritten(q, n).value;
      assert r == Scale(Conj(q), 1.0 / n);
      MulScale(q, Conj(q), 1.0 / n);
      MulScale(Conj(q), q, 1.0 / n);
      MulConj(q);
      assert n * n * (1.0 / n) == n;
      assert Scale(FromReal(n * n), 1.0 / n) == FromReal(n);
    }
  }

  /**
   * For every real quaternion x above Threshold, whose norm is x,
   * `inverse()` returns 1 although the inverse of x is 1/x: x·1 is not 1
   * unless x is 1.
   */
  lemma InverseAsWrittenCounterexample(x: real)
    requires x > Threshold
    ensures IsNorm(FromReal(x), x)
    ensures InverseAsWritten(FromReal(x), x) == Ok(Identity())
    ensures x != 1.0 ==> Mul(FromReal(x), InverseAsWritten(FromReal(x), x).value) != Identity()
  {
    assert NormSq(FromReal(x)) == x * x;
    var r := ScalarDiv(Conj(FromReal(x)), x);
    DivideBySelf(x, x / x);
    assert r.value.t == x / x;
    MulIdentity(FromReal(x));
  }

  /** The corrected inverse: 1 divided by q, i.e. conj(q) / |q|², with the same failure test. */
  function Inverse(q: Quat): Outcome<Quat> {
    Divide(Identity(), q)
  }

  /** The corrected inverse is a two-sided inverse, and it fails exactly for a norm at most Threshold. */
  lemma InverseLaws(q: Quat)
    ensures Inverse(q).DivisionByZero? <==> NormSq(q) <= Threshold * Threshold
    ensures Inverse(q).Ok? ==> Mul(q, Inverse(q).value) == Identity()
    ensures Inverse(q).Ok? ==> Mul(Inverse(q).value, q) == Identity()
    ensures Inverse(q).Ok? ==> Inverse(q).value == Scale(Conj(q), 1.0 / NormSq(q))
  {
    if Inverse(q).Ok? {
      var d := NormSq(q);
      var r := Inverse(q).value;
      QuotientSolvesLeft(Identity(), q);
      QuotientIsConjugateProduct(Identity(), q);
      MulIdentity(Conj(q));
      assert r == Scale(Conj(q), 1.0 / d);
      MulScale(Conj(q), q, 1.0 / d);
      MulConj(q);
      assert d * (1.0 / d) == 1.0;
    }
  }

  // ---------------------------------------------------------------------
  // Self-aliased compound assignment, as written
  // ---------------------------------------------------------------------

  /**
   * What `p *= p` leaves in p. Only the receiver is snapshotted, so each
   * line reads the argument's components that earlier lines have already
   * overwritten.
   */
  function SelfMulAsWritten(p: Quat): Quat {
    var t := MulT(p, p);
    var u := MulU(p, Quat(t, p.u, p.v, p.w));
    var v := MulV(p, Quat(t, u, p.v, p.w));
    var w := MulW(p, Quat(t, u, v, p.w));
    Quat(t, u, v, w)
  }

  lemma SelfMulOfI()
    ensures SelfMulAsWritten(I()) == Quat(-1.0, -1.0, 0.0, 0.0)
  {
  }

  /** i *= i leaves (−1, −1, 0, 0) although i·i is −1. */
  lemma SelfMulCounterexample()
    ensures SelfMulAsWritten(I()) != Mul(I(), I())
  {
    SelfMulOfI();
    UnitII();
  }

  /**
   * What `p /= p` leaves in p. As with `*=`, later lines read components
   * already overwritten, and the denominator is recomputed from them on
   * each line. The first line divides the squared norm by itself, so every
   * later denominator is at least 1. `q1`, `q2` and `q3` are the states of
   * the shared object after the first, second and third line.
   */
  function SelfDivAsWritten(p: Quat): Quat
    requires NormSq(p) != 0.0
  {
    var t := QuotientT(p, p);
    DivideBySelf(NormSq(p), t);
    var q1 := Quat(t, p.u, p.v, p.w);
    NormSqZero(q1);
    var u := QuotientU(p, q1);
    var q2 := Quat(t, u, p.v, p.w);
    NormSqZero(q2);
    var v := QuotientV(p, q2);
    var q3 := Quat(t, u, v, p.w);
    NormSqZero(q3);
    var w := QuotientW(p, q3);
    Quat(t, u, v, w)
  }

  /**
   * For p = a·i with a ≠ 0, `p /= p` leaves a non-zero i component,
   * although p / p is the identity.
   */
  lemma SelfDivCounterexample(a: real)
    requires a != 0.0
    ensures NormSq(FromComplex(0.0, a)) != 0.0
    ensures SelfDivAsWritten(FromComplex(0.0, a)).u != 0.0
    ensures Quotient(FromComplex(0.0, a), FromComplex(0.0, a)) == Identity()
  {
    var p := FromComplex(0.0, a);
    SquarePositive(a, NormSq(p));
    var t := QuotientT(p, p);
    DivideBySelf(NormSq(p), t);
    var q1 := Quat(t, p.u, p.v, p.w);
    NormSqZero(q1);
    var u := QuotientU(p, q1);
    assert p.u * q1.t - p.t * q1.u - p.w * q1.v + p.v * q1.w == a;
    QuotientNonZero(a, NormSq(q1), u);
    assert SelfDivAsWritten(p).u == u;
    QuotientSelf(p);
  }

  // ---------------------------------------------------------------------
  // Scalar division: as written, and corrected
  // ---------------------------------------------------------------------

  /** Dividing by −2 fails although scaling by −1/2 is well defined. */
  lemma ScalarDivNegativeFails(q: Quat)
    ensures ScalarDiv(q, -2.0) == DivisionByZero
    ensures Scale(Scale(q, -0.5), -2.0) == q
  {
  }

  /** Scalar division that tests the magnitude of the divisor. */
  function ScalarDivChecked(q: Quat, x: real): (r: Outcome<Quat>)
    ensures r.DivisionByZero? <==> -Threshold <= x <= Threshold
    ensures r.Ok? ==> Scale(r.value, x) == q && r.value == Scale(q, 1.0 / x)
    ensures x > 0.0 ==> r == ScalarDiv(q, x)
  {
    if -Threshold <= x <= Threshold then DivisionByZero else Ok(Quat(q.t / x, q.u / x, q.v / x, q.w / x))
  }

  /** Dividing by the null quaternion, by 0 or by 1e-16 fails; dividing by 1e-14 succeeds. */
  lemma DivisionErrors(q: Quat)
    ensures Divide(q, Null()) == DivisionByZero
    ensures ScalarDiv(q, 0.0) == DivisionByZero && ScalarDiv(q, 1.0e-16) == DivisionByZero
    ensures ScalarDiv(q, 1.0e-14).Ok?
  {
  }
}
