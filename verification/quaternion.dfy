/*
 * The `ensiie::Quaternion` class: four scalar fields that the compound
 * assignment operators overwrite in place, the inline accessors and value
 * members, and the free operators that copy their left operand and apply
 * the compound operator to the copy.
 *
 * Every result is tied to the value-level algebra of QuaternionAlgebra,
 * where the laws of that algebra are proved.
 */
module Quaternions {
  import opened QuaternionAlgebra

  class Quaternion {
    var t: real
    var u: real
    var v: real
    var w: real

    /** The quaternion the object currently holds. */
    function Value(): Quat
      reads this
    {
      Quat(t, u, v, w)
    }

    // -------------------------------------------------------------------
    // Constructors
    // -------------------------------------------------------------------

    /** The default constructor: the null quaternion. */
    constructor Default()
      ensures Value() == Null()
    {
      u, v, w, t := 0.0, 0.0, 0.0, 0.0;
    }

    /** The real quaternion x. */
    constructor Real(x: real)
      ensures Value() == FromReal(x)
    {
      t, u, v, w := x, 0.0, 0.0, 0.0;
    }

    /** The complex number x + y·i. */
    constructor Complex(x: real, y: real)
      ensures Value() == FromComplex(x, y)
    {
      t, u, v, w := x, y, 0.0, 0.0;
    }

    /** x + y·i + z·j + w·k. */
    constructor (x: real, y: real, z: real, w: real)
      ensures Value() == Quat(x, y, z, w)
    {
      t, u, v, this.w := x, y, z, w;
    }

    /** The implicit copy constructor the free operators use. */
    constructor Copy(q: Quaternion)
      ensures Value() == q.Value()
    {
      t, u, v, w := q.t, q.u, q.v, q.w;
    }

    // -------------------------------------------------------------------
    // Inline members
    // -------------------------------------------------------------------

    function GetT(): (r: real)
      reads this
      ensures r == Value().t
    {
      t
    }

    function GetU(): (r: real)
      reads this
      ensures r == Value().u
    {
      u
    }

    function GetV(): (r: real)
      reads this
      ensures r == Value().v
    {
      v
    }

    function GetW(): (r: real)
      reads this
      ensures r == Value().w
    {
      w
    }

    /**
     * The square of `norm()`. The norm itself is a square root, which the
     * model represents by the relation IsNorm; the norm is 0 exactly for
     * the null quaternion (NormZero).
     */
    function NormSquared(): (r: real)
      reads this
      ensures r >= 0.0
      ensures r == 0.0 <==> Value() == Null()
    {
      NormSqZero(Value());
      NormSq(Value())
    }

    /** The static `norm(q)` delegates to the instance member. */
    static function NormSquaredOf(q: Quaternion): (r: real)
      reads q
      ensures r == q.NormSquared()
    {
      q.NormSquared()
    }

    /** `identity()`: the two-sided unit of the product. */
    static function IdentityValue(): (r: Quat)
      ensures r == Quat(1.0, 0.0, 0.0, 0.0)
      ensures forall p :: Mul(p, r) == p && Mul(r, p) == p
    {
      Identity()
    }

    /** `conjugate()` keeps t, negates the imaginary parts, and is undone by a second conjugation. */
    function Conjugate(): (r: Quat)
      reads this
      ensures r == Conj(Value())
      ensures r.t == t && Conj(r) == Value()
    {
      Quat(t, -u, -v, -w)
    }

    /** The static `conjugate(q)` delegates to the instance member. */
    static function ConjugateOf(q: Quaternion): (r: Quat)
      reads q
      ensures r == q.Conjugate()
    {
      q.Conjugate()
    }

    /**
     * `inverse()`: the conjugate divided, through the free scalar
     * operator `/`, by the norm `n`. It fails exactly when the norm is at
     * most Threshold; see InverseAsWrittenProduct for what it yields.
     */
    method Inverse(n: real) returns (r: Outcome<Quat>)
      requires IsNorm(Value(), n)
      ensures r == InverseAsWritten(Value(), n)
      ensures r.DivisionByZero? <==> NormSq(Value()) <= Threshold * Threshold
    {
      var c := Conjugate();
      var conjugate := new Quaternion(c.t, c.u, c.v, c.w);
      r := OverScalar(conjugate, n);
      NormThreshold(Value(), n);
    }

    /** The static `inverse(q)` delegates to the instance member. */
    static method InverseOf(q: Quaternion, n: real) returns (r: Outcome<Quat>)
      requires IsNorm(q.Value(), n)
      ensures r == InverseAsWritten(q.Value(), n)
    {
      r := q.Inverse(n);
    }

    /** Unary minus: every component negated, the additive inverse. */
    function Negated(): (r: Quat)
      reads this
      ensures r == Neg(Value())
      ensures Add(Value(), r) == Null() && Neg(r) == Value()
    {
      Quat(-t, -u, -v, -w)
    }

    /** `==`: componentwise equality, which is equality of the values. */
    function Equals(q: Quaternion): (r: bool)
      reads this, q
      ensures r <==> Value() == q.Value()
    {
      t == q.t && u == q.u && v == q.v && w == q.w
    }

    /** `!=`: the negation of `==`. */
    function NotEquals(q: Quaternion): (r: bool)
      reads this, q
      ensures r <==> Value() != q.Value()
    {
      !Equals(q)
    }

    // -------------------------------------------------------------------
    // Compound assignment
    // -------------------------------------------------------------------

    /** `+=`: componentwise sum; each line reads the argument before writing the receiver. */
    method AddAssign(q: Quaternion)
      modifies this
      ensures Value() == Add(old(Value()), old(q.Value()))
      ensures q != this ==> unchanged(q)
    {
      t := t + q.t;
      u := u + q.u;
      v := v + q.v;
      w := w + q.w;
    }

    /** `-=`: componentwise difference. */
    method SubAssign(q: Quaternion)
      modifies this
      ensures Value() == Sub(old(Value()), old(q.Value()))
      ensures q != this ==> unchanged(q)
    {
      t := t - q.t;
      u := u - q.u;
      v := v - q.v;
      w := w - q.w;
    }

    /**
     * `*=`: the receiver is saved (`t1`..`w1` in the source), then its
     * fields are overwritten one line at a time, each line reading the
     * argument as it is at that moment. For a distinct argument this is the
     * Hamilton product old(this)·q; for `q *= q` the later lines read
     * fields that the earlier lines have already overwritten.
     */
    method MulAssign(q: Quaternion)
      modifies this
      ensures q != this ==> Value() == Mul(old(Value()), q.Value())
      ensures q == this ==> Value() == SelfMulAsWritten(old(Value()))
    {
      var saved := Value();
      t := MulT(saved, q.Value());
      u := MulU(saved, q.Value());
      v := MulV(saved, q.Value());
      w := MulW(saved, q.Value());
    }

    /**
     * `/=`: fails, leaving the receiver unchanged, when the divisor's norm
     * is at most Threshold (tested on the squared norm, see NormThreshold).
     * Otherwise the receiver is saved and overwritten one line at a time as
     * in `*=`: for a distinct argument it becomes the left quotient
     * q⁻¹·old(this); for `q /= q` later lines read overwritten fields.
     */
    method DivAssign(q: Quaternion) returns (ok: bool)
      modifies this
      ensures ok <==> NormSq(old(q.Value())) > Threshold * Threshold
      ensures !ok ==> Value() == old(Value())
      ensures ok && q != this ==> Value() == Quotient(old(Value()), q.Value())
      ensures ok && q == this ==> Value() == SelfDivAsWritten(old(Value()))
    {
      if q.NormSquared() <= Threshold * Threshold {
        return false;
      }
      ok := true;
      SquarePositive(Threshold, Threshold * Threshold);
      var saved := Value();
      t := QuotientT(saved, q.Value());
      if q == this {
        // the argument's t is now |q|² / |q|², that is 1
        DivideBySelf(NormSq(saved), QuotientT(saved, saved));
      }
      // the argument is not null, so each line's denominator is non-zero
      NormSqZero(q.Value());
      u := QuotientU(saved, q.Value());
      NormSqZero(q.Value());
      v := QuotientV(saved, q.Value());
      NormSqZero(q.Value());
      w := QuotientW(saved, q.Value());
    }

    /** Scalar `*=`: every component multiplied by x. */
    method ScaleAssign(x: real)
      modifies this
      ensures Value() == Scale(old(Value()), x)
    {
      t := t * x;
      u := u * x;
      v := v * x;
      w := w * x;
    }

    /**
     * Scalar `/=`: fails, leaving the receiver unchanged, for every
     * x <= Threshold (zero and all negatives); otherwise every component
     * is divided by x.
     */
    method ScalarDivAssign(x: real) returns (ok: bool)
      modifies this
      ensures ok <==> x > Threshold
      ensures !ok ==> Value() == old(Value())
      ensures ok ==> ScalarDiv(old(Value()), x) == Ok(Value())
    {
      if x <= Threshold {
        return false;
      }
      ok := true;
      t := t / x;
      u := u / x;
      v := v / x;
      w := w / x;
    }

    // -------------------------------------------------------------------
    // Corrected compound assignment: both operands snapshotted
    // -------------------------------------------------------------------

    /** `*=` that snapshots the argument as well, so `q *= q` squares q. */
    method MulAssignSafe(q: Quaternion)
      modifies this
      ensures Value() == Mul(old(Value()), old(q.Value()))
    {
      var saved, arg := Value(), q.Value();
      t := MulT(saved, arg);
      u := MulU(saved, arg);
      v := MulV(saved, arg);
      w := MulW(saved, arg);
    }

    /** `/=` that snapshots the argument as well, so `q /= q` yields the identity. */
    method DivAssignSafe(q: Quaternion) returns (ok: bool)
      modifies this
      ensures (if ok then Ok(Value()) else DivisionByZero) == Divide(old(Value()), old(q.Value()))
      ensures !ok ==> Value() == old(Value())
    {
      var saved, arg := Value(), q.Value();
      if NormSq(arg) <= Threshold * Threshold {
        return false;
      }
      ok := true;
      SquarePositive(Threshold, Threshold * Threshold);
      t := QuotientT(saved, arg);
      u := QuotientU(saved, arg);
      v := QuotientV(saved, arg);
      w := QuotientW(saved, arg);
    }
  }

  // ---------------------------------------------------------------------
  // Free operators: copy the left operand, apply the compound operator
  // to the copy, return the copy's value. The inputs are only read.
  // ---------------------------------------------------------------------

  /** `q1 + q2`; subtracting q2 again gives back q1. */
  method Plus(q1: Quaternion, q2: Quaternion) returns (r: Quat)
    ensures r == Add(q1.Value(), q2.Value())
    ensures Sub(r, q2.Value()) == q1.Value()
  {
    var copy := new Quaternion.Copy(q1);
    copy.AddAssign(q2);
    r := copy.Value();
  }

  /** `q1 - q2`; adding q2 again gives back q1. */
  method Minus(q1: Quaternion, q2: Quaternion) returns (r: Quat)
    ensures r == Sub(q1.Value(), q2.Value())
    ensures Add(r, q2.Value()) == q1.Value()
  {
    var copy := new Quaternion.Copy(q1);
    copy.SubAssign(q2);
    r := copy.Value();
  }

  /** `q1 * q2`: the copy is never the argument, so this is the Hamilton product. */
  method Times(q1: Quaternion, q2: Quaternion) returns (r: Quat)
    ensures r == Mul(q1.Value(), q2.Value())
  {
    var copy := new Quaternion.Copy(q1);
    copy.MulAssign(q2);
    r := copy.Value();
  }

  /**
   * `q1 / q2`: fails for a divisor of norm at most Threshold; otherwise
   * the left quotient, which q2 multiplied from the left turns back into q1.
   */
  method Over(q1: Quaternion, q2: Quaternion) returns (r: Outcome<Quat>)
    ensures r == Divide(q1.Value(), q2.Value())
    ensures r.Ok? ==> Mul(q2.Value(), r.value) == q1.Value()
  {
    var copy := new Quaternion.Copy(q1);
    var ok := copy.DivAssign(q2);
    r := if ok then Ok(copy.Value()) else DivisionByZero;
    if ok {
      QuotientSolvesLeft(q1.Value(), q2.Value());
    }
  }

  /** `q * x`: scaling, which is the product with the real quaternion x on the right. */
  method TimesScalar(q: Quaternion, x: real) returns (r: Quat)
    ensures r == Scale(q.Value(), x)
    ensures r == Mul(q.Value(), FromReal(x))
  {
    var copy := new Quaternion.Copy(q);
    copy.ScaleAssign(x);
    r := copy.Value();
    ScaleIsRealProduct(q.Value(), x);
  }

  /** `x * q`: the same scaling, which is the product with x on the left, so x*q == q*x. */
  method ScalarTimes(x: real, q: Quaternion) returns (r: Quat)
    ensures r == Scale(q.Value(), x)
    ensures r == Mul(FromReal(x), q.Value())
  {
    var copy := new Quaternion.Copy(q);
    copy.ScaleAssign(x);
    r := copy.Value();
    ScaleIsRealProduct(q.Value(), x);
  }

  /** `q / x`: fails for every x <= Threshold; otherwise scaling by x undoes it. */
  method OverScalar(q: Quaternion, x: real) returns (r: Outcome<Quat>)
    ensures r == ScalarDiv(q.Value(), x)
    ensures r.DivisionByZero? <==> x <= Threshold
    ensures r.Ok? ==> Scale(r.value, x) == q.Value()
  {
    var copy := new Quaternion.Copy(q);
    var ok := copy.ScalarDivAssign(x);
    r := if ok then Ok(copy.Value()) else DivisionByZero;
  }
}
