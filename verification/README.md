# Quaternions (`ensiie::Quaternion`) in Dafny

This project models the `ensiie::Quaternion` class: a quaternion
t + u·i + v·j + w·k stored in four scalar fields, with
- constructors from 0, 1, 2 or 4 scalars;
- the norm, conjugate, inverse and identity;
- unary minus, `==` and `!=`;
- the compound assignments `+= -= *= /=` against a quaternion and `*= /=` against a scalar, which overwrite the receiver's fields in place;
- the free operators `+ - * /` and both scalar orders of `*`, plus `q / x`. Each free operator copies its left operand and applies the compound assignment to the copy.

The scalar is Dafny's exact `real`. The header `quaternion.h` and the generic `template/quaternion_template.h` declare the same inline members. The `.cpp` file implements them for one scalar type, so the model has one quaternion type. Each row of the table below that cites a member of quaternion.h (lines 73-217) also covers its generic twin in template/quaternion_template.h (lines 74-218), which has the same body one line lower.

Two modules:

- `QuaternionAlgebra` (`quaternion_algebra.dfy`) holds the value-level algebra.
  - `Quat` is the value of a quaternion. `Outcome` is either `Ok(value)` or the single division error.
  - Every closed-form formula of the source is written down once. `Mul` and `Quotient` are built from their per-line components (`MulT`..`MulW`, `QuotientT`..`QuotientW`), one per assignment line of `*=` and `/=`.
  - Lemmas prove what these formulas mean: Hamilton's rules, associativity, the identity and inverse laws, and the division round trip. Because `/=` is left division, the right round trip holds exactly when the operands commute.
  - Further lemmas state what the self-aliased `*=`/`/=` and `inverse()` actually compute.
- `Quaternions` (`quaternion.dfy`) holds the class `Quaternion` with fields `t, u, v, w`.
  - The compound assignments are `modifies this` methods. `+=`, `-=` and the scalar `*=` and `/=` update each field from itself and the argument's matching field.
  - `*=` and `/=` against a quaternion first save the receiver. They then overwrite the fields one line at a time, reading the argument as it stands at that line. That is what makes `q *= q` and `q /= q` differ from the product and quotient.
  - Division failure is an `ok` result that is false, with the receiver unchanged.
  - The free operators are methods that allocate a copy, apply the compound method to it and return the copy's value. They only read their inputs.

The threshold `1e-15` of both division tests is the constant `Threshold`. The source compares the norm, a square root, with it. The model compares the squared norm with `Threshold²`, and `NormThreshold` proves the two tests agree. Where the norm itself is needed (`inverse()`), it is an argument `n` with `IsNorm(q, n)`: `n ≥ 0` and `n² = t²+u²+v²+w²`.

Three behaviours of the code are easy to misread, and the model states each one as the code has it:
- Quaternion `/=` at template/quaternion_template.cpp:81-84 computes `conj(q2)·q1 / |q2|²`. That is the left quotient `q2⁻¹·q1`, not `q1·q2⁻¹`. `QuotientIsConjugateProduct` and `RightRoundTrip` state this.
- Scalar `/=` at template/quaternion_template.cpp:99 tests the raw value `x <= 1e-15`, so it rejects every negative divisor. The documentation at quaternion.h:189 promises failure only on division by 0 (`ScalarDivNegativeFails`).
- `inverse()` at quaternion.h:141 divides the conjugate by the norm, not by its square. The result is an inverse only for unit quaternions (`InverseAsWrittenProduct`).

## Model

| member | source | states |
|---|---|---|
| Quaternions.Quaternion.Default | template/quaternion_template.cpp:15-17 | the default constructor yields the null quaternion (0,0,0,0) |
| Quaternions.Quaternion.Real | template/quaternion_template.cpp:19-21 | the one-scalar constructor yields (x,0,0,0) |
| Quaternions.Quaternion.Complex | template/quaternion_template.cpp:23-25 | the two-scalar constructor yields (x,y,0,0) |
| Quaternions.Quaternion.constructor | template/quaternion_template.cpp:27-29 | the four-scalar constructor yields (x,y,z,w) |
| Quaternions.Quaternion.Copy | template/quaternion_template.cpp:118 | the copy made by a free operator holds the left operand's value |
| QuaternionAlgebra.EmbeddingsAreHomomorphisms | template/quaternion_template.cpp:19-25 | the real and complex constructors turn products of reals and of complex numbers into Hamilton products |
| QuaternionAlgebra.NormSq | template/quaternion_template.cpp:35-38 | the quantity under the square root of `norm()` is never negative |
| Quaternions.Quaternion.NormSquared | template/quaternion_template.cpp:35-38 | the squared norm of the object is non-negative and zero exactly for the null quaternion |
| QuaternionAlgebra.NormSqZero | template/quaternion_template.cpp:37 | t²+u²+v²+w² is zero if and only if all four components are zero |
| QuaternionAlgebra.NormUnique | template/quaternion_template.cpp:37 | a quaternion has at most one non-negative square root of its squared norm |
| QuaternionAlgebra.NormZero | template/quaternion_template.cpp:35-38 | the norm is zero if and only if the quaternion is null |
| QuaternionAlgebra.NormThreshold | template/quaternion_template.cpp:73 | `norm() <= 1e-15` holds exactly when the squared norm is at most 1e-30 |
| Quaternions.Quaternion.AddAssign | template/quaternion_template.cpp:40-47 | `+=` leaves the componentwise sum of the old receiver and the old argument, also when both are the same object, and does not change a distinct argument |
| Quaternions.Quaternion.SubAssign | template/quaternion_template.cpp:49-56 | `-=` leaves the componentwise difference and does not change a distinct argument |
| QuaternionAlgebra.AddLaws | template/quaternion_template.cpp:40-56 | addition is commutative and associative with the null quaternion as unit; subtraction adds the negation |
| Quaternions.Quaternion.MulAssign | template/quaternion_template.cpp:58-69 | `*=` with a distinct argument leaves the Hamilton product old(this)·q; with itself as argument it leaves what SelfMulAsWritten computes |
| QuaternionAlgebra.MulIdentity | template/quaternion_template.cpp:64-67 | the identity is a unit of the product on both sides |
| QuaternionAlgebra.HamiltonRules | template/quaternion_template.cpp:64-67 | i² = j² = k² = −1, ij = k, jk = i, ki = j, and swapping two distinct units negates their product |
| QuaternionAlgebra.HamiltonTriple | template/quaternion_template.cpp:64-67 | ijk = −1 |
| QuaternionAlgebra.MulNotCommutative | template/quaternion_template.cpp:64-67 | ij and ji differ, so the product is not commutative |
| QuaternionAlgebra.MulAssociative | template/quaternion_template.cpp:64-67 | the product formula is associative |
| QuaternionAlgebra.MulDistributesLeft | template/quaternion_template.cpp:64-67 | p·(q+r) = p·q + p·r |
| QuaternionAlgebra.MulDistributesRight | template/quaternion_template.cpp:64-67 | (p+q)·r = p·r + q·r |
| QuaternionAlgebra.MulScale | template/quaternion_template.cpp:64-67 | scaling either factor by x scales the product by x |
| QuaternionAlgebra.SelfMulOfI | template/quaternion_template.cpp:58-69 | `i *= i` leaves (−1, −1, 0, 0) |
| QuaternionAlgebra.SelfMulCounterexample | template/quaternion_template.cpp:58-69 | what `i *= i` leaves differs from i·i |
| Quaternions.Quaternion.MulAssignSafe | template/quaternion_template.cpp:58-69 | `*=` that saves both operands leaves old(this)·old(q) in every case, including self-multiplication |
| Quaternions.Quaternion.DivAssign | template/quaternion_template.cpp:71-86 | `/=` fails exactly when the divisor's squared norm is at most 1e-30, and then leaves the receiver unchanged; otherwise a distinct argument gives the left quotient and the argument itself gives what SelfDivAsWritten computes |
| QuaternionAlgebra.QuotientIsConjugateProduct | template/quaternion_template.cpp:81-84 | the four lines compute conj(q)·p / \|q\|², i.e. q⁻¹·p |
| QuaternionAlgebra.QuotientSolvesLeft | template/quaternion_template.cpp:81-84 | the quotient x of p by q solves q·x = p |
| QuaternionAlgebra.QuotientRoundTrip | template/quaternion_template.cpp:81-84 | dividing q·p by q gives back p |
| QuaternionAlgebra.QuotientSelf | template/quaternion_template.cpp:81-84 | q divided by q is the identity for every non-null q |
| QuaternionAlgebra.RightRoundTrip | template/quaternion_template.cpp:81-84 | dividing p·q by q gives back p exactly when p and q commute |
| QuaternionAlgebra.DivideSpec | template/quaternion_template.cpp:71-86 | division fails if and only if the divisor's norm is at most 1e-15, and otherwise solves q·x = p, undoes left multiplication and maps q/q to the identity |
| QuaternionAlgebra.SelfDivCounterexample | template/quaternion_template.cpp:71-86 | for p = a·i with a ≠ 0, `p /= p` leaves a non-zero i component although p/p is the identity |
| Quaternions.Quaternion.DivAssignSafe | template/quaternion_template.cpp:71-86 | `/=` that saves both operands yields exactly the outcome of dividing old(this) by old(q), failure included, and leaves the receiver unchanged on failure |
| QuaternionAlgebra.DivisionErrors | template/quaternion_template.cpp:73-76 | dividing by the null quaternion, by 0 or by 1e-16 fails; dividing by 1e-14 succeeds |
| Quaternions.Quaternion.ScaleAssign | template/quaternion_template.cpp:88-95 | scalar `*=` multiplies every component by x |
| QuaternionAlgebra.ScaleIsRealProduct | template/quaternion_template.cpp:88-95 | scaling by x is the Hamilton product with the real quaternion x, on either side |
| QuaternionAlgebra.ScaleInverse | template/quaternion_template.cpp:88-108 | scaling by x ≠ 0 and then by 1/x gives back the quaternion |
| QuaternionAlgebra.ScalarDiv | template/quaternion_template.cpp:97-108 | scalar division fails if and only if x <= 1e-15; otherwise scaling the result by x gives back q, and the result is q scaled by 1/x |
| Quaternions.Quaternion.ScalarDivAssign | template/quaternion_template.cpp:97-108 | scalar `/=` fails exactly for x <= 1e-15 and then leaves the receiver unchanged; otherwise its new value is the scalar quotient |
| QuaternionAlgebra.ScalarDivNegativeFails | template/quaternion_template.cpp:99 | dividing by −2 fails although scaling by −1/2 is the exact inverse of scaling by −2 |
| QuaternionAlgebra.ScalarDivChecked | template/quaternion_template.cpp:97-108 | scalar division that tests \|x\| fails if and only if −1e-15 <= x <= 1e-15, otherwise undoes scaling by x, and agrees with the source for every positive x |
| Quaternions.Plus | template/quaternion_template.cpp:116-121 | `q1 + q2` is the componentwise sum, and subtracting q2 again gives back q1 |
| Quaternions.Minus | template/quaternion_template.cpp:123-128 | `q1 - q2` is the componentwise difference, and adding q2 again gives back q1 |
| Quaternions.Times | template/quaternion_template.cpp:130-135 | `q1 * q2` is the Hamilton product; the copy is never the argument, so aliasing cannot affect it |
| Quaternions.Over | template/quaternion_template.cpp:137-142 | `q1 / q2` fails exactly as division does, and a result x satisfies q2·x = q1 |
| Quaternions.TimesScalar | template/quaternion_template.cpp:144-149 | `q * x` scales every component and equals q·x as a Hamilton product |
| Quaternions.ScalarTimes | template/quaternion_template.cpp:151-156 | `x * q` scales every component and equals x·q as a Hamilton product, so `x * q == q * x` |
| Quaternions.OverScalar | template/quaternion_template.cpp:158-163 | `q / x` fails exactly for x <= 1e-15, and otherwise scaling the result by x gives back q |
| Quaternions.Quaternion.GetT | quaternion.h:73 | returns the stored real part and changes nothing |
| Quaternions.Quaternion.GetU | quaternion.h:80 | returns the stored i component and changes nothing |
| Quaternions.Quaternion.GetV | quaternion.h:87 | returns the stored j component and changes nothing |
| Quaternions.Quaternion.GetW | quaternion.h:94 | returns the stored k component and changes nothing |
| Quaternions.Quaternion.IdentityValue | quaternion.h:108 | `identity()` is (1,0,0,0) and a unit of the product on both sides |
| Quaternions.Quaternion.NormSquaredOf | quaternion.h:116 | the static `norm(q)` gives exactly the instance result |
| Quaternions.Quaternion.Conjugate | quaternion.h:125 | `conjugate()` keeps t, negates u, v and w, and conjugating again gives back the quaternion |
| QuaternionAlgebra.ConjInvolution | template/quaternion_template.h:126 | conjugation is an involution, and q + conj(q) is the real quaternion 2t |
| QuaternionAlgebra.ConjOfProduct | quaternion.h:125 | the conjugate of a product is the product of the conjugates in reverse order |
| QuaternionAlgebra.MulConj | template/quaternion_template.h:126 | q·conj(q) and conj(q)·q are both the real quaternion \|q\|² |
| Quaternions.Quaternion.ConjugateOf | quaternion.h:133 | the static `conjugate(q)` gives exactly the instance result |
| Quaternions.Quaternion.Inverse | quaternion.h:141 | `inverse()` is the conjugate divided by the norm n through the free scalar `/`, and fails exactly when the squared norm is at most 1e-30 |
| QuaternionAlgebra.InverseAsWrittenProduct | template/quaternion_template.h:142-146 | `inverse()` fails exactly for a norm at most 1e-15; otherwise q·r and r·q are the real quaternion n, which is the identity only when n = 1; the documentation promises failure only at norm 0 |
| QuaternionAlgebra.InverseAsWrittenCounterexample | quaternion.h:141 | for every real x > 1e-15, `inverse()` of x is 1, and x·1 is not the identity unless x = 1 |
| QuaternionAlgebra.InverseLaws | template/quaternion_template.h:142 | the corrected inverse conj(q)/\|q\|² fails under the same test and is otherwise a two-sided inverse |
| Quaternions.Quaternion.InverseOf | quaternion.h:149 | the static `inverse(q)` gives exactly the instance result |
| Quaternions.Quaternion.Negated | quaternion.h:200 | unary minus negates all four components, is undone by a second negation, and q + (−q) is null |
| QuaternionAlgebra.NegLaws | template/quaternion_template.h:201 | negation is an involution, the additive inverse, and the product with the real quaternion −1 |
| Quaternions.Quaternion.Equals | quaternion.h:209 | `==` holds if and only if the two quaternions have the same value |
| Quaternions.Quaternion.NotEquals | quaternion.h:217 | `!=` holds if and only if `==` does not |

## Left out

- The square root in `norm()` (template/quaternion_template.cpp:37): Dafny has none. The model works with the squared norm, and the norm enters only as an argument `n` with `IsNorm(q, n)`.
- Quaternions.Quaternion.Inverse: takes the norm as an argument `n` with `IsNorm(Value(), n)` instead of computing it. A quaternion has at most one such `n` (`NormUnique`). That one exists, i.e. that every non-negative real has a real square root, is assumed and not proved. The same holds for `Quaternions.Quaternion.InverseOf` and `QuaternionAlgebra.InverseAsWritten`.
- `operator<<` (template/quaternion_template.cpp:110-114): its output depends on how the stream formats a `double`.
- IEEE `double` arithmetic (rounding, NaN, infinities): the scalar is an exact `real`. The constant `1e-15` is kept exactly.
- The exception type: `std::invalid_argument` is thrown where the documentation says `std::domain_error` or `std::exception`. Every failure is the single outcome `DivisionByZero`, or `ok == false` for the compound methods.
- The destructor (template/quaternion_template.cpp:31-33), include guards, and instantiating the template header over a type `T`: the scalar is `real` throughout.
- The `Quaternion&` returned by the compound operators, which allows chaining: the methods return nothing, or only the `ok` flag.
- Return by value: members and free operators that return a new `Quaternion` return its value as a `Quat`. The free operators still build their result in a freshly allocated copy.

## Findings

| source | as written | input that shows it | evidently intended | confidence | as-written member | corrected member |
|---|---|---|---|---|---|---|
| template/quaternion_template.cpp:58-69 | `*=` saves only the receiver, so `q *= q` reads fields of the argument that earlier lines overwrote | q = i: `i *= i` leaves (−1, −1, 0, 0) | the square i·i = −1 | not executed; high | QuaternionAlgebra.SelfMulCounterexample | Quaternions.Quaternion.MulAssignSafe |
| template/quaternion_template.cpp:71-86 | `/=` saves only the receiver, so `q /= q` divides by norms recomputed from overwritten fields | q = a·i with a ≠ 0: the i component stays non-zero | q / q = identity | not executed; high | QuaternionAlgebra.SelfDivCounterexample | Quaternions.Quaternion.DivAssignSafe |
| quaternion.h:141 | `inverse()` divides the conjugate by the norm instead of the squared norm | q = 2: `inverse()` returns 1, and 2·1 ≠ 1 | conj(q)/\|q\|², a two-sided inverse | not executed; high | QuaternionAlgebra.InverseAsWrittenCounterexample | QuaternionAlgebra.InverseLaws |
| template/quaternion_template.cpp:99 | scalar `/=` tests `x <= 1e-15`, rejecting every negative divisor | x = −2 fails, although scaling by −1/2 undoes scaling by −2 | reject only \|x\| <= 1e-15 | not executed; medium | QuaternionAlgebra.ScalarDivNegativeFails | QuaternionAlgebra.ScalarDivChecked |
