/** The ray's ODE state, its derivative vector, the refractive index model
    and the two curvature equations (flat and spherical planet).
    Floating-point numbers are modelled as `real`; nothing here says
    anything about rounding, infinities or NaN. */
module RayStates {

  /** Pressure (Pa) and temperature (K) as functions of altitude (m).
      The atmosphere profile itself belongs to the atmosphere library. */
  datatype Atmosphere = Atmosphere(pressure: real -> real, temperature: real -> real)

  /** An atmosphere together with the empirical refractivity formula
      `air_index_minus_1(wavelength, pressure, temperature, relative humidity)`
      of the atmosphere library, which this model leaves uninterpreted. */
  datatype Medium = Medium(atm: Atmosphere, airIndexMinus1: (real, real, real, real) -> real)

  /** Wavelength used for every refractive-index evaluation: 530 nm. */
  const Wavelength: real := 0.000000530

  /** Step of the centred finite difference that estimates dn/dh (metres). */
  const Epsilon: real := 0.01

  /** n - 1 at altitude h, with zero relative humidity. */
  function NMinus1(m: Medium, h: real): real
  {
    m.airIndexMinus1(Wavelength, m.atm.pressure(h), m.atm.temperature(h), 0.0)
  }

  /** Refractive index at altitude h. */
  function N(m: Medium, h: real): real
  {
    NMinus1(m, h) + 1.0
  }

  /** Centred finite-difference estimate of d(n - 1)/dh. */
  function DN(m: Medium, h: real): real
  {
    var n1 := NMinus1(m, h - Epsilon);
    var n2 := NMinus1(m, h + Epsilon);
    (n2 - n1) / (2.0 * Epsilon)
  }

  /** The index depends on the atmosphere only through pressure and
      temperature at that altitude, and n is one more than n - 1. */
  lemma IndexIsLocal(m1: Medium, m2: Medium, h: real)
    requires m1.airIndexMinus1 == m2.airIndexMinus1
    requires m1.atm.pressure(h) == m2.atm.pressure(h)
    requires m1.atm.temperature(h) == m2.atm.temperature(h)
    ensures NMinus1(m1, h) == NMinus1(m2, h)
    ensures N(m1, h) == N(m2, h)
  {
  }

  /** Where n - 1 is a quadratic a*y^2 + b*y + c around h, the centred
      difference with step 0.01 is the exact derivative 2*a*h + b. */
  lemma DNExactOnQuadratic(m: Medium, h: real, a: real, b: real, c: real)
    requires NMinus1(m, h - Epsilon) == a * (h - Epsilon) * (h - Epsilon) + b * (h - Epsilon) + c
    requires NMinus1(m, h + Epsilon) == a * (h + Epsilon) * (h + Epsilon) + b * (h + Epsilon) + c
    ensures DN(m, h) == 2.0 * a * h + b
  {
    var lo, hi := h - Epsilon, h + Epsilon;
    calc {
      NMinus1(m, hi) - NMinus1(m, lo);
      a * (hi * hi - lo * lo) + b * (hi - lo);
      { assert hi * hi - lo * lo == 4.0 * Epsilon * h; }
      a * (4.0 * Epsilon * h) + b * (2.0 * Epsilon);
      (2.0 * a * h + b) * (2.0 * Epsilon);
    }
  }

  /** The gradient estimate has the sign of the change of n - 1 across
      [h - 0.01, h + 0.01], and n exceeds 1 exactly where n - 1 is positive. */
  lemma IndexSigns(m: Medium, h: real)
    ensures DN(m, h) > 0.0 <==> NMinus1(m, h + Epsilon) > NMinus1(m, h - Epsilon)
    ensures DN(m, h) == 0.0 <==> NMinus1(m, h + Epsilon) == NMinus1(m, h - Epsilon)
    ensures DN(m, h) < 0.0 <==> NMinus1(m, h + Epsilon) < NMinus1(m, h - Epsilon)
    ensures N(m, h) > 1.0 <==> NMinus1(m, h) > 0.0
  {
  }

  /** In an atmosphere whose pressure and temperature do not vary with
      altitude the index is the same everywhere and its gradient is zero. */
  lemma UniformMediumHasNoGradient(m: Medium, h: real, h': real)
    requires forall y :: m.atm.pressure(y) == m.atm.pressure(0.0)
    requires forall y :: m.atm.temperature(y) == m.atm.temperature(0.0)
    ensures N(m, h) == N(m, h')
    ensures DN(m, h) == 0.0
  {
    assert NMinus1(m, h - Epsilon) == NMinus1(m, h + Epsilon);
  }

  // ---------------------------------------------------------------------
  // The derivative vector and its vector-space operations

  /** d/dx of (x, h, dr): the integrator combines these linearly. */
  datatype RayStateDerivative = RayStateDerivative(dx: real, dr: real, d2r: real)

  const Zero: RayStateDerivative := RayStateDerivative(0.0, 0.0, 0.0)

  /** Componentwise sum: subtracting `b` componentwise gives back `a`. */
  function Add(a: RayStateDerivative, b: RayStateDerivative): (r: RayStateDerivative)
    ensures r.dx - b.dx == a.dx && r.dr - b.dr == a.dr && r.d2r - b.d2r == a.d2r
  {
    RayStateDerivative(a.dx + b.dx, a.dr + b.dr, a.d2r + b.d2r)
  }

  /** Componentwise difference, undone by adding `b` back. */
  function Sub(a: RayStateDerivative, b: RayStateDerivative): (r: RayStateDerivative)
    ensures Add(r, b) == a
  {
    RayStateDerivative(a.dx - b.dx, a.dr - b.dr, a.d2r - b.d2r)
  }

  /** Scaling by `k`: by 1 it gives the vector itself, and a zero vector
      stays zero. */
  function Mul(a: RayStateDerivative, k: real): (r: RayStateDerivative)
    ensures k == 1.0 ==> r == a
    ensures a == Zero ==> r == Zero
  {
    RayStateDerivative(a.dx * k, a.dr * k, a.d2r * k)
  }

  /** Division by a non-zero `k`, undone by scaling by `k`. */
  function Div(a: RayStateDerivative, k: real): (r: RayStateDerivative)
    requires k != 0.0
    ensures Mul(r, k) == a
  {
    RayStateDerivative(a.dx / k, a.dr / k, a.d2r / k)
  }

  /** The additive inverse. */
  function Neg(a: RayStateDerivative): (r: RayStateDerivative)
    ensures Add(a, r) == Zero
  {
    RayStateDerivative(-a.dx, -a.dr, -a.d2r)
  }

  /** The five operators agree with one another as in a vector space. */
  lemma OperatorsAgree(a: RayStateDerivative, b: RayStateDerivative, k: real)
    ensures Sub(a, b) == Add(a, Neg(b))
    ensures Neg(a) == Mul(a, -1.0)
    ensures k != 0.0 ==> Div(a, k) == Mul(a, 1.0 / k)
    ensures k != 0.0 ==> Mul(Div(a, k), k) == a
    ensures Sub(Add(a, b), b) == a
    ensures Add(a, Neg(a)) == Zero && Add(a, Zero) == a
  {
  }

  /** Addition and scaling satisfy the vector-space laws the integrator
      relies on when it forms weighted sums of stage derivatives. */
  lemma VectorSpaceLaws(a: RayStateDerivative, b: RayStateDerivative, c: RayStateDerivative, k: real, l: real)
    ensures Add(a, b) == Add(b, a)
    ensures Add(Add(a, b), c) == Add(a, Add(b, c))
    ensures Mul(Add(a, b), k) == Add(Mul(a, k), Mul(b, k))
    ensures Mul(a, k + l) == Add(Mul(a, k), Mul(a, l))
    ensures Mul(Mul(a, k), l) == Mul(a, k * l)
    ensures Mul(a, 1.0) == a && Mul(a, 0.0) == Zero
  {
  }

  // ---------------------------------------------------------------------
  // The Euclidean norm

  function SquaredNorm(d: RayStateDerivative): real
  {
    d.dx * d.dx + d.dr * d.dr + d.d2r * d.d2r
  }

  /** `sqrt` (the platform's square root) returns the non-negative root of v. */
  predicate IsSqrtAt(sqrt: real -> real, v: real)
  {
    sqrt(v) >= 0.0 && sqrt(v) * sqrt(v) == v
  }

  lemma MulPositive(a: real, b: real)
    requires a > 0.0 && b > 0.0
    ensures a * b > 0.0
  {
  }

  lemma MulNonneg(a: real, b: real)
    requires a >= 0.0 && b >= 0.0
    ensures a * b >= 0.0
  {
  }

  lemma ZeroProduct(a: real, b: real)
    requires a * b == 0.0
    ensures a == 0.0 || b == 0.0
  {
  }

  lemma DiffOfSquares(x: real, y: real)
    ensures (y - x) * (y + x) == y * y - x * x
  {
  }

  lemma SquareNonneg(x: real)
    ensures x * x >= 0.0
  {
  }

  lemma ZeroSquare(x: real)
    requires x * x == 0.0
    ensures x == 0.0
  {
    ZeroProduct(x, x);
  }

  /** x^2, named so that facts about squares survive in larger contexts. */
  function Sq(x: real): real
  {
    x * x
  }

  lemma SquarePositive(x: real)
    requires x != 0.0
    ensures Sq(x) > 0.0
  {
    SquareNonneg(x);
    if Sq(x) == 0.0 {
      ZeroProduct(x, x);
    }
  }

  lemma ScaledSquare(x: real, k: real)
    ensures (x * k) * (x * k) == (k * k) * (x * x)
  {
  }

  /** Non-negative reals with equal squares are equal. */
  lemma SquareRootsAgree(x: real, y: real)
    requires x >= 0.0 && y >= 0.0 && x * x == y * y
    ensures x == y
  {
    if x < y {
      MulPositive(y - x, y + x);
      DiffOfSquares(x, y);
      assert false;
    } else if y < x {
      MulPositive(x - y, x + y);
      DiffOfSquares(y, x);
      assert false;
    }
  }

  /** A component is bounded by any non-negative r whose square dominates it. */
  lemma SquareBound(r: real, c: real)
    requires r >= 0.0 && r * r >= c * c
    ensures -r <= c <= r
  {
    if c > r {
      MulPositive(c - r, c + r);
      DiffOfSquares(r, c);
      assert false;
    } else if c < -r {
      MulPositive(-c - r, -c + r);
      DiffOfSquares(r, -c);
      assert false;
    }
  }

  /** The squared norm dominates every squared component. */
  lemma SquaredNormDominates(d: RayStateDerivative)
    ensures SquaredNorm(d) >= d.dx * d.dx
    ensures SquaredNorm(d) >= d.dr * d.dr
    ensures SquaredNorm(d) >= d.d2r * d.d2r
  {
    SquareNonneg(d.dx);
    SquareNonneg(d.dr);
    SquareNonneg(d.d2r);
  }

  /** Only the zero vector has squared norm zero. */
  lemma SquaredNormZero(d: RayStateDerivative)
    requires SquaredNorm(d) == 0.0
    ensures d == Zero
  {
    SquareNonneg(d.dx);
    SquareNonneg(d.dr);
    SquareNonneg(d.d2r);
    ZeroSquare(d.dx);
    ZeroSquare(d.dr);
    ZeroSquare(d.d2r);
  }

  lemma ScaledSquaredNorm(d: RayStateDerivative, k: real)
    ensures SquaredNorm(Mul(d, k)) == (k * k) * SquaredNorm(d)
  {
    ScaledSquare(d.dx, k);
    ScaledSquare(d.dr, k);
    ScaledSquare(d.d2r, k);
  }

  /** A non-negative root of the squared norm bounds every component and
      vanishes exactly for the zero vector. */
  lemma NormRootFacts(d: RayStateDerivative, r: real)
    requires r >= 0.0 && r * r == SquaredNorm(d)
    ensures r == 0.0 <==> d == Zero
    ensures -r <= d.dx <= r && -r <= d.dr <= r && -r <= d.d2r <= r
  {
    if r == 0.0 {
      SquaredNormZero(d);
    } else if d == Zero {
      ZeroSquare(r);
    }
    SquaredNormDominates(d);
    SquareBound(r, d.dx);
    SquareBound(r, d.dr);
    SquareBound(r, d.d2r);
  }

  /** Magnitude of a derivative vector, used by the integrator as its
      error measure: the square root of the sum of the squared components. */
  function Abs(d: RayStateDerivative, sqrt: real -> real): (r: real)
    requires IsSqrtAt(sqrt, SquaredNorm(d))
    ensures r >= 0.0 && r * r == SquaredNorm(d)
    ensures r == 0.0 <==> d == Zero
    ensures -r <= d.dx <= r && -r <= d.dr <= r && -r <= d.d2r <= r
  {
    var r := sqrt(SquaredNorm(d));
    NormRootFacts(d, r);
    r
  }

  /** The norm is absolutely homogeneous: |d * k| == |k| * |d|. */
  lemma AbsHomogeneous(d: RayStateDerivative, k: real, sqrt: real -> real)
    requires IsSqrtAt(sqrt, SquaredNorm(d))
    requires IsSqrtAt(sqrt, SquaredNorm(Mul(d, k)))
    ensures Abs(Mul(d, k), sqrt) == Abs(d, sqrt) * (if k < 0.0 then -k else k)
  {
    var v := SquaredNorm(d);
    var r0 := Abs(d, sqrt);
    var r1 := Abs(Mul(d, k), sqrt);
    ScaledSquaredNorm(d, k);
    assert r1 >= 0.0 && r1 * r1 == (k * k) * v;
    RootScales(r0, r1, v, k);
  }

  /** If r0 is the root of v then r0 * |k| is the root of k^2 * v. */
  lemma RootScales(r0: real, r1: real, v: real, k: real)
    requires r0 >= 0.0 && r0 * r0 == v
    requires r1 >= 0.0 && r1 * r1 == (k * k) * v
    ensures r1 == r0 * (if k < 0.0 then -k else k)
  {
    var ak := if k < 0.0 then -k else k;
    ScaledSquare(r0, ak);
    assert ak * ak == k * k;
    MulNonneg(r0, ak);
    SquareRootsAgree(r1, r0 * ak);
  }

  // ---------------------------------------------------------------------
  // The ray state and the shift along a derivative

  /** Value of a ray state: distance along the baseline, altitude, slope. */
  datatype RayStateValue = RayStateValue(x: real, h: real, dr: real)

  /** The state reached by moving `amount` along `dir` from `s`. */
  function Shift(s: RayStateValue, dir: RayStateDerivative, amount: real): (r: RayStateValue)
    ensures amount == 0.0 || dir == Zero ==> r == s
    ensures r.x - s.x == dir.dx * amount && r.h - s.h == dir.dr * amount && r.dr - s.dr == dir.d2r * amount
  {
    RayStateValue(s.x + dir.dx * amount, s.h + dir.dr * amount, s.dr + dir.d2r * amount)
  }

  /** Shifting by nothing, or along the zero vector, changes nothing;
      two shifts along one direction add up; shifting along a scaled or a
      summed direction is shifting along the parts. */
  lemma ShiftLaws(s: RayStateValue, d: RayStateDerivative, e: RayStateDerivative, a: real, b: real)
    ensures Shift(s, d, 0.0) == s && Shift(s, Zero, a) == s
    ensures Shift(Shift(s, d, a), d, b) == Shift(s, d, a + b)
    ensures Shift(s, Mul(d, b), a) == Shift(s, d, b * a)
    ensures Shift(Shift(s, d, a), e, a) == Shift(s, Add(d, e), a)
    ensures Shift(Shift(s, d, a), d, -a) == s
  {
  }

  /** A ray's mutable state, advanced in place by the integrator. */
  class RayState {
    var x: real
    var h: real
    var dr: real

    constructor (x: real, h: real, dr: real)
      ensures Value() == RayStateValue(x, h, dr)
    {
      this.x, this.h, this.dr := x, h, dr;
    }

    function Value(): RayStateValue
      reads this
    {
      RayStateValue(x, h, dr)
    }

    /** Moves the state `amount` along `dir`. */
    method ShiftInPlace(dir: RayStateDerivative, amount: real)
      modifies this
      ensures x == old(x) + dir.dx * amount
      ensures h == old(h) + dir.dr * amount
      ensures dr == old(dr) + dir.d2r * amount
      ensures Value() == Shift(old(Value()), dir, amount)
    {
      x := x + dir.dx * amount;
      h := h + dir.dr * amount;
      dr := dr + dir.d2r * amount;
    }
  }

  // ---------------------------------------------------------------------
  // The curvature equations

  /** Sign of a real: -1, 0 or 1. */
  function Sign(v: real): int
  {
    if v > 0.0 then 1 else if v < 0.0 then -1 else 0
  }

  lemma QuotientSign(p: real, q: real, w: real)
    ensures q > 0.0 && w > 0.0 ==> Sign(p / q * w) == Sign(p)
  {
    if q <= 0.0 || w <= 0.0 {
    } else if p > 0.0 {
      assert p / q > 0.0;
      assert p / q * w > 0.0;
    } else if p < 0.0 {
      assert p / q < 0.0;
      assert p / q * w < 0.0;
    }
  }

  /** Flat planet: d(dr)/dx = (dn / n) * (1 + dr^2). */
  function CalcDerivativeFlat(m: Medium, state: RayStateValue): (d: RayStateDerivative)
    requires N(m, state.h) != 0.0
    ensures d.dx == 1.0 && d.dr == state.dr
    ensures DN(m, state.h) == 0.0 ==> d.d2r == 0.0
    ensures N(m, state.h) > 0.0 ==> Sign(d.d2r) == Sign(DN(m, state.h))
  {
    var dr := state.dr;
    var h := state.h;
    var nr := N(m, h);
    var dnr := DN(m, h);
    var d2r := dnr / nr * (1.0 + dr * dr);
    QuotientSign(dnr, nr, 1.0 + dr * dr);
    RayStateDerivative(1.0, dr, d2r)
  }

  /** The purely geometric part of the spherical curvature, 2*dr^2/r + r. */
  function GeometricCurvature(dr: real, r: real): real
    requires r != 0.0
  {
    2.0 * dr * dr / r + r
  }

  /** (dr^2 + r^2) * dn / n has the sign of dn when n > 0 and r != 0. */
  lemma RefractionSign(dn: real, n: real, dr: real, r: real)
    requires n > 0.0 && r != 0.0
    ensures Sign(dn / n * (dr * dr + r * r)) == Sign(dn)
  {
    SquareNonneg(dr);
    SquarePositive(r);
    var w := dr * dr + r * r;
    assert w == Sq(dr) + Sq(r);
    QuotientSign(dn, n, w);
  }

  /** What the spherical equation adds to the geometric curvature,
      (dr^2 + r^2) * dn / n, has the sign of dn when n > 0. */
  lemma SphericalRefraction(dn: real, n: real, dr: real, r: real)
    requires n != 0.0 && r != 0.0
    ensures n > 0.0 ==>
      Sign(dr * dr * dn / n + r * r * dn / n + 2.0 * dr * dr / r + r - GeometricCurvature(dr, r)) == Sign(dn)
  {
    var extra := dr * dr * dn / n + r * r * dn / n + 2.0 * dr * dr / r + r - GeometricCurvature(dr, r);
    assert extra == dn / n * (dr * dr + r * r);
    if n > 0.0 {
      RefractionSign(dn, n, dr, r);
    }
  }

  /** Spherical planet of the given radius, with r = h + radius:
      d(dr)/dx = dr^2 * dn/n + r^2 * dn/n + 2*dr^2/r + r. */
  function CalcDerivativeSpherical(m: Medium, radius: real, state: RayStateValue): (d: RayStateDerivative)
    requires N(m, state.h) != 0.0
    requires state.h + radius != 0.0
    ensures d.dx == 1.0 && d.dr == state.dr
    ensures DN(m, state.h) == 0.0 ==> d.d2r == GeometricCurvature(state.dr, state.h + radius)
    ensures N(m, state.h) > 0.0 ==>
      Sign(d.d2r - GeometricCurvature(state.dr, state.h + radius)) == Sign(DN(m, state.h))
    ensures DN(m, state.h) == 0.0 && state.h + radius > 0.0 ==> d.d2r >= state.h + radius
  {
    var dr := state.dr;
    var h := state.h;
    var nr := N(m, h);
    var dnr := DN(m, h);
    var r := h + radius;
    var d2r := dr * dr * dnr / nr + r * r * dnr / nr + 2.0 * dr * dr / r + r;
    SphericalRefraction(dnr, nr, dr, r);
    assert r > 0.0 ==> 2.0 * dr * dr / r >= 0.0;
    RayStateDerivative(1.0, dr, d2r)
  }

  /** One step of size t along the flat-planet derivative. */
  function FlatStep(m: Medium, s: RayStateValue, t: real): RayStateValue
    requires N(m, s.h) != 0.0
  {
    Shift(s, CalcDerivativeFlat(m, s), t)
  }

  /** k applications of a step function, starting from s. */
  function Steps(step: RayStateValue -> RayStateValue, s: RayStateValue, k: nat): RayStateValue
  {
    if k == 0 then s else step(Steps(step, s, k - 1))
  }

  /** The flat-planet step of size t as a step function, in a medium whose
      index is never zero. */
  function FlatStepFn(m: Medium, t: real): RayStateValue -> RayStateValue
    requires forall y :: N(m, y) != 0.0
  {
    p => FlatStep(m, p, t)
  }

  /** k forward steps of size t along the flat-planet derivative. */
  function FlatSteps(m: Medium, s: RayStateValue, t: real, k: nat): RayStateValue
    requires forall y :: N(m, y) != 0.0
  {
    Steps(FlatStepFn(m, t), s, k)
  }

  /** The point a distance d further along the straight line through s
      with slope s.dr. */
  function Straight(s: RayStateValue, d: real): RayStateValue
  {
    RayStateValue(s.x + d, s.h + s.dr * d, s.dr)
  }

  /** Where the index has no gradient, one flat step of length t moves t
      further along the straight line. */
  lemma FlatStepWithoutGradient(m: Medium, p: RayStateValue, t: real)
    requires N(m, p.h) != 0.0 && DN(m, p.h) == 0.0
    ensures FlatStep(m, p, t) == Straight(p, t)
  {
    var d := CalcDerivativeFlat(m, p);
    assert d == RayStateDerivative(1.0, p.dr, 0.0);
    assert Shift(p, d, t) == RayStateValue(p.x + t, p.h + p.dr * t, p.dr);
  }

  /** Moving a then t along a straight line is moving a + t. */
  lemma StraightAdds(s: RayStateValue, a: real, t: real)
    ensures Straight(Straight(s, a), t) == Straight(s, a + t)
  {
    assert s.dr * a + s.dr * t == s.dr * (a + t);
  }

  /** A step function that moves every state t further along its own
      straight line, applied k times, moves k * t along the first line. */
  lemma {:induction false} StepsAlongLine(step: RayStateValue -> RayStateValue, s: RayStateValue, t: real, k: nat)
    requires forall p :: step(p) == Straight(p, t)
    ensures Steps(step, s, k) == Straight(s, k as real * t)
  {
    if k > 0 {
      StepsAlongLine(step, s, t, k - 1);
      StraightAdds(s, (k - 1) as real * t, t);
      assert (k - 1) as real * t + t == k as real * t;
    }
  }

  /** Flat planet, no refractive gradient anywhere: stepping along the
      derivative traces a straight line, h = h0 + x * dr0 with dr fixed. */
  lemma FlatUniformRayIsStraight(m: Medium, s: RayStateValue, t: real, k: nat)
    requires forall y :: N(m, y) != 0.0
    requires forall y :: DN(m, y) == 0.0
    ensures FlatSteps(m, s, t, k) == Straight(s, k as real * t)
  {
    forall p
      ensures FlatStepFn(m, t)(p) == Straight(p, t)
    {
      FlatStepWithoutGradient(m, p, t);
    }
    StepsAlongLine(FlatStepFn(m, t), s, t, k);
  }
}
