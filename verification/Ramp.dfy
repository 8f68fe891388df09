/**
 The raised-cosine sine trajectory of src/hil_trajectory.cpp and its acceleration bound.

 An angle is a point (c, s) of the unit circle. With x the envelope's angle, k = dx/dt and n twice
 the number of ramp cycles, the sine itself runs at the angle n * x.
 */
module Ramp {
  import opened Intervals

  // ----- angles

  datatype Angle = Angle(cos: real, sin: real)

  /** The addition theorem. */
  function Turn(a: Angle, c: real, s: real): Angle {
    Angle(a.cos * c - a.sin * s, a.sin * c + a.cos * s)
  }

  function Multiple(n: nat, c: real, s: real): Angle {
    if n == 0 then Angle(1.0, 0.0) else Turn(Multiple(n - 1, c, s), c, s)
  }

  function Recurrence(c: real, last: real, previous: real): real {
    2.0 * c * last - previous
  }

  function Chebyshev(n: nat, c: real): real {
    if n == 0 then 1.0 else if n == 1 then c else Recurrence(c, Chebyshev(n - 1, c), Chebyshev(n - 2, c))
  }

  lemma TurnTwice(a: real, b: real, c: real, s: real)
    requires OnCircle(c, s)
    ensures Turn(Turn(Angle(a, b), c, s), c, s).cos == Recurrence(c, Turn(Angle(a, b), c, s).cos, a)
  {
    assert a * (s * s + c * c) == a;
  }

  /** cos(n x) is the Chebyshev polynomial of cos(x). */
  lemma {:induction false} MultipleIsChebyshev(n: nat, c: real, s: real)
    requires OnCircle(c, s)
    ensures Multiple(n, c, s).cos == Chebyshev(n, c)
  {
    if n >= 2 {
      MultipleIsChebyshev(n - 1, c, s);
      MultipleIsChebyshev(n - 2, c, s);
      var a := Multiple(n - 2, c, s);
      TurnTwice(a.cos, a.sin, c, s);
    } else if n == 1 {
      assert Multiple(0, c, s) == Angle(1.0, 0.0);
    }
  }

  /** One more turn of an angle whose sine has the factor s. */
  lemma TurnOnce(a: real, u: real, c: real, s: real)
    requires OnCircle(c, s)
    ensures Turn(Angle(a, s * u), c, s) == Angle(a * c - u * (1.0 - c * c), s * (u * c + a))
  {
    assert u * (s * s) == u * (1.0 - c * c);
  }

  lemma Doubled(c: real, s: real)
    requires OnCircle(c, s)
    ensures Multiple(2, c, s) == Angle(2.0 * c * c - 1.0, s * (2.0 * c))
  {
    assert Multiple(0, c, s) == Angle(1.0, 0.0);
    assert Multiple(1, c, s) == Angle(c, s * 1.0);
    TurnOnce(c, 1.0, c, s);
  }

  lemma Tripled(c: real, s: real)
    requires OnCircle(c, s)
    ensures Multiple(3, c, s) == Angle(4.0 * c * c * c - 3.0 * c, s * (4.0 * c * c - 1.0))
  {
    Doubled(c, s);
    var a, u := 2.0 * c * c - 1.0, 2.0 * c;
    TurnOnce(a, u, c, s);
    assert a * c - u * (1.0 - c * c) == 4.0 * c * c * c - 3.0 * c && u * c + a == 4.0 * c * c - 1.0;
  }

  lemma Quadrupled(c: real, s: real)
    requires OnCircle(c, s)
    ensures Multiple(4, c, s) == Angle(8.0 * c * c * c * c - 8.0 * c * c + 1.0, s * (8.0 * c * c * c - 4.0 * c))
  {
    Tripled(c, s);
    var a, u := 4.0 * c * c * c - 3.0 * c, 4.0 * c * c - 1.0;
    TurnOnce(a, u, c, s);
    assert a * c - u * (1.0 - c * c) == 8.0 * c * c * c * c - 8.0 * c * c + 1.0 &&
      u * c + a == 8.0 * c * c * c - 4.0 * c;
  }

  // ----- the two polynomials

  /** The ramp lasts one or two whole cycles. */
  newtype Cycles = r: int | 1 <= r <= 2 witness 1

  function P(r: Cycles): seq<real> {
    if r == 1 then [16.0, -80.0, -32.0, 108.0, 0.0, 0.0] else [-128.0, 544.0, 1024.0, -2392.0, -1024.0, 2000.0]
  }

  function Q(r: Cycles): seq<real> {
    if r == 1 then [-8.0, -16.0, 36.0, 0.0, 0.0, 0.0] else [16.0, 128.0, -264.0, -256.0, 400.0, 0.0]
  }

  /** The formal derivative at x. */
  function Slope(coefficients: seq<real>, x: real): real {
    if coefficients == [] then 0.0 else Shift(Slope(coefficients[1..], x), x, Eval(coefficients[1..], x))
  }

  function Curvature(coefficients: seq<real>, x: real, h: real): real {
    if coefficients == [] then 0.0
    else Shift(Curvature(coefficients[1..], x, h), x + h, Slope(coefficients[1..], x))
  }

  function Expansion(value: real, slope: real, curvature: real, h: real): real {
    value + h * slope + h * h * curvature
  }

  lemma ExpandShift(e: real, d: real, r: real, x: real, h: real, c: real)
    ensures Shift(Expansion(e, d, r, h), x + h, c) == Expansion(Shift(e, x, c), Shift(d, x, e), Shift(r, x + h, d), h)
  {
  }

  /** Slope is the derivative: what is left over is of second order in the step. */
  lemma {:induction false} SlopeIsDerivative(coefficients: seq<real>, x: real, h: real)
    ensures Eval(coefficients, x + h) ==
      Expansion(Eval(coefficients, x), Slope(coefficients, x), Curvature(coefficients, x, h), h)
  {
    if coefficients != [] {
      var rest := coefficients[1..];
      SlopeIsDerivative(rest, x, h);
      ExpandShift(Eval(rest, x), Slope(rest, x), Curvature(rest, x, h), x, h, coefficients[0]);
    }
  }

  lemma OneMore(a: real, rest: seq<real>, x: real)
    ensures Eval([a] + rest, x) == Shift(Eval(rest, x), x, a)
    ensures Slope([a] + rest, x) == Shift(Slope(rest, x), x, Eval(rest, x))
  {
    assert ([a] + rest)[1..] == rest;
  }

  /** Six coefficients written out. */
  lemma OfSix(a: real, b: real, c: real, d: real, e: real, g: real, x: real)
    ensures var v1 := Shift(g, x, e); var v2 := Shift(v1, x, d); var v3 := Shift(v2, x, c); var v4 := Shift(v3, x, b);
      var d2 := Shift(g, x, v1); var d3 := Shift(d2, x, v2); var d4 := Shift(d3, x, v3);
      && Eval([a, b, c, d, e, g], x) == Shift(v4, x, a)
      && Slope([a, b, c, d, e, g], x) == Shift(d4, x, v4)
  {
    OneMore(g, [], x);
    assert [g] + [] == [g];
    assert Eval([g], x) == g && Slope([g], x) == 0.0;
    OneMore(e, [g], x);
    assert Slope([e, g], x) == g;
    OneMore(d, [e, g], x);
    OneMore(c, [d, e, g], x);
    OneMore(b, [c, d, e, g], x);
    OneMore(a, [b, c, d, e, g], x);
  }

  function P1(c: real): real { Shift(Shift(Shift(108.0, c, -32.0), c, -80.0), c, 16.0) }
  function Q1(c: real): real { Shift(Shift(36.0, c, -16.0), c, -8.0) }
  function P2(c: real): real {
    Shift(Shift(Shift(Shift(Shift(2000.0, c, -1024.0), c, -2392.0), c, 1024.0), c, 544.0), c, -128.0)
  }
  function Q2(c: real): real { Shift(Shift(Shift(Shift(400.0, c, -256.0), c, -264.0), c, 128.0), c, 16.0) }
  function Slope1(c: real): real { Shift(72.0, c, -16.0) }
  function Slope2(c: real): real { Shift(Shift(Shift(1600.0, c, -768.0), c, -528.0), c, 128.0) }

  lemma FormOfP1(c: real)
    ensures Eval(P(1), c) == P1(c)
  {
    OfSix(16.0, -80.0, -32.0, 108.0, 0.0, 0.0, c);
    assert Shift(0.0, c, 0.0) == 0.0 && Shift(0.0, c, 108.0) == 108.0;
  }

  lemma FormOfQ1(c: real)
    ensures Eval(Q(1), c) == Q1(c) && Slope(Q(1), c) == Slope1(c)
  {
    OfSix(-8.0, -16.0, 36.0, 0.0, 0.0, 0.0, c);
    assert Shift(0.0, c, 0.0) == 0.0 && Shift(0.0, c, 36.0) == 36.0;
  }

  lemma OneCycleForms(c: real)
    ensures Eval(P(1), c) == P1(c) && Eval(Q(1), c) == Q1(c) && Slope(Q(1), c) == Slope1(c)
  {
    FormOfP1(c);
    FormOfQ1(c);
  }

  lemma FormOfP2(c: real)
    ensures Eval(P(2), c) == P2(c)
  {
    OfSix(-128.0, 544.0, 1024.0, -2392.0, -1024.0, 2000.0, c);
  }

  lemma FormOfQ2(c: real)
    ensures Eval(Q(2), c) == Q2(c)
  {
    OfSix(16.0, 128.0, -264.0, -256.0, 400.0, 0.0, c);
  }

  lemma FormOfSlope2(c: real)
    ensures Slope(Q(2), c) == Slope2(c)
  {
    OfSix(16.0, 128.0, -264.0, -256.0, 400.0, 0.0, c);
    SlopeOfQ2(c);
  }

  lemma TwoCycleForms(c: real)
    ensures Eval(P(2), c) == P2(c) && Eval(Q(2), c) == Q2(c) && Slope(Q(2), c) == Slope2(c)
  {
    FormOfP2(c);
    FormOfQ2(c);
    FormOfSlope2(c);
  }

  lemma SlopeOfQ2(c: real)
    ensures var v1 := Shift(0.0, c, 400.0); var v2 := Shift(v1, c, -256.0);
      var v3 := Shift(v2, c, -264.0); var v4 := Shift(v3, c, 128.0);
      var d2 := Shift(0.0, c, v1); var d3 := Shift(d2, c, v2); var d4 := Shift(d3, c, v3);
      Shift(d4, c, v4) == Slope2(c)
  {
    var v2 := Shift(400.0, c, -256.0);
    var v3 := Shift(v2, c, -264.0);
    assert Shift(400.0, c, v2) == 800.0 * c - 256.0;
    assert Shift(800.0 * c - 256.0, c, v3) == 1200.0 * c * c - 512.0 * c - 264.0;
  }

  /** The derivative by x of sin(x) * q(cos(x)), given q and its slope at cos(x) = c. */
  function RampDerivative(c: real, q: real, slope: real): real {
    c * q - (1.0 - c * c) * slope
  }

  lemma Derivative1(c: real)
    ensures P1(c) == RampDerivative(c, Q1(c), Slope1(c))
  {
  }

  lemma Derivative2(c: real)
    ensures P2(c) == RampDerivative(c, Q2(c), Slope2(c))
  {
  }

  /** P is the derivative of sin(x) * Q(cos(x)) as a polynomial in cos(x). */
  lemma StationaryPolynomial(r: Cycles, c: real)
    ensures Eval(P(r), c) == RampDerivative(c, Eval(Q(r), c), Slope(Q(r), c))
  {
    if r == 1 {
      OneCycleForms(c);
      Derivative1(c);
    } else {
      TwoCycleForms(c);
      Derivative2(c);
    }
  }

  function Cube(n: int): real {
    (n * n * n) as real
  }

  lemma LowChebyshev(c: real)
    ensures Chebyshev(1, c) == c && Chebyshev(2, c) == 2.0 * c * c - 1.0
    ensures Chebyshev(3, c) == 4.0 * c * c * c - 3.0 * c
    ensures Chebyshev(4, c) == 8.0 * c * c * c * c - 8.0 * c * c + 1.0
    ensures Chebyshev(5, c) == 16.0 * c * c * c * c * c - 20.0 * c * c * c + 5.0 * c
  {
    assert Chebyshev(0, c) == 1.0;
    assert Chebyshev(2, c) == Recurrence(c, c, 1.0);
    assert Chebyshev(3, c) == Recurrence(c, Chebyshev(2, c), c);
    assert Chebyshev(4, c) == Recurrence(c, Chebyshev(3, c), Chebyshev(2, c));
    assert Chebyshev(5, c) == Recurrence(c, Chebyshev(4, c), Chebyshev(3, c));
  }

  function Combination(middle: real, t: real, above: real, u: real, below: real, l: real): real {
    -2.0 * middle * t + above * u + below * l
  }

  lemma Combination1(c: real)
    ensures P1(c) == Combination(8.0, 2.0 * c * c - 1.0, 27.0, 4.0 * c * c * c - 3.0 * c, 1.0, c)
  {
  }

  lemma Combination2(c: real)
    ensures P2(c) == Combination(64.0, 8.0 * c * c * c * c - 8.0 * c * c + 1.0,
                                 125.0, 16.0 * c * c * c * c * c - 20.0 * c * c * c + 5.0 * c,
                                 27.0, 4.0 * c * c * c - 3.0 * c)
  {
  }

  /** The form the coefficients were taken from, with n twice the ramp cycles. */
  lemma ChebyshevForm(r: Cycles, c: real)
    ensures var n := 2 * r as nat;
      Eval(P(r), c) ==
      Combination(Cube(n), Chebyshev(n, c), Cube(n + 1), Chebyshev(n + 1, c), Cube(n - 1), Chebyshev(n - 1, c))
  {
    LowChebyshev(c);
    if r == 1 {
      OneCycleForms(c);
      Combination1(c);
      assert Cube(2) == 8.0 && Cube(3) == 27.0 && Cube(1) == 1.0;
    } else {
      TwoCycleForms(c);
      Combination2(c);
      assert Cube(4) == 64.0 && Cube(5) == 125.0 && Cube(3) == 27.0;
    }
  }
}
