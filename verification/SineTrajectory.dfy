/**
 The setpoints of SineTrajectory (src/hil_trajectory.cpp) and the bounds it gives for them. Angles
 are points of the unit circle, so the trigonometric functions themselves stay abstract.
 */
module SineTrajectories {
  import opened Doubles
  import opened Wrappers
  import opened Intervals
  import opened Ramp

  // ----- envelope, velocity, acceleration

  datatype Envelope = Envelope(a: real, da: real, dda: real)

  /** `k`: how fast the envelope's angle (c, s) turns. */
  function EnvelopeUp(amplitude: real, k: real, c: real, s: real): Envelope {
    Envelope(amplitude * 0.5 * (1.0 - c), amplitude * 0.5 * k * s, amplitude * 0.5 * k * k * c)
  }

  function EnvelopeDown(amplitude: real, k: real, c: real, s: real): Envelope {
    Envelope(amplitude * 0.5 * (1.0 + c), -amplitude * 0.5 * k * s, -amplitude * 0.5 * k * k * c)
  }

  function Flat(amplitude: real): Envelope {
    Envelope(amplitude, 0.0, 0.0)
  }

  function Velocity(e: Envelope, omega: real, m: Angle): real {
    e.da * m.sin + e.a * omega * m.cos
  }

  function Acceleration(e: Envelope, omega: real, m: Angle): real {
    e.dda * m.sin + 2.0 * omega * e.da * m.cos - omega * omega * e.a * m.sin
  }

  /** The acceleration while ramping up over `r` cycles, by the formula of accelerationAt. */
  function RampAcceleration(r: Cycles, amplitude: real, k: real, c: real, s: real): real {
    Acceleration(EnvelopeUp(amplitude, k, c, s), 2.0 * r as real * k, Multiple(2 * r as nat, c, s))
  }

  // ----- each is the derivative of the one before

  /** What the product of two first-order expansions leaves over, divided by the squared step. */
  function ProductRest(v: real, r: real, q: real, w: real, u: real, p: real, h: real): real {
    r * u + v * p + q * w + h * (r * p + q * u) + h * h * (q * p)
  }

  /** The product rule. */
  lemma ProductExpands(v: real, r: real, q: real, w: real, u: real, p: real, h: real)
    ensures Times(Expansion(v, r, q, h), Expansion(w, u, p, h)) ==
      Expansion(Times(v, w), Times(r, w) + Times(v, u), ProductRest(v, r, q, w, u, p, h), h)
  {
    var k := h * h;
    Distributed(v, h * r, k * q, w, h * u, k * p);
    FirstOrder(v, r, w, u, h);
    SecondOrder(v, r, q, w, u, p, h, k);
  }

  lemma Distributed(v: real, a: real, b: real, w: real, c: real, d: real)
    ensures (v + a + b) * (w + c + d) ==
      v * w + (a * w + v * c) + (a * c + v * d + b * w) + (a * d + b * c) + b * d
  {
  }

  lemma FirstOrder(v: real, r: real, w: real, u: real, h: real)
    ensures h * r * w + v * (h * u) == h * (r * w + v * u)
  {
  }

  lemma SecondOrder(v: real, r: real, q: real, w: real, u: real, p: real, h: real, k: real)
    requires k == h * h
    ensures (h * r * (h * u) + v * (k * p) + k * q * w) + (h * r * (k * p) + k * q * (h * u)) + k * q * (k * p) ==
      k * (r * u + v * p + q * w + h * (r * p + q * u) + k * (q * p))
  {
    assert h * r * (h * u) == k * (r * u);
    assert h * r * (k * p) + k * q * (h * u) == k * (h * (r * p + q * u));
    assert k * q * (k * p) == k * (k * (q * p));
  }

  lemma ScaledExpands(x: real, v: real, r: real, q: real, h: real)
    ensures Times(x, Expansion(v, r, q, h)) == Expansion(Times(x, v), Times(x, r), Times(x, q), h)
  {
    assert x * (h * r) == h * (x * r) && x * (h * h * q) == h * h * (x * q);
  }

  lemma SumExpands(v: real, r: real, q: real, w: real, u: real, p: real, h: real)
    ensures Expansion(v, r, q, h) + Expansion(w, u, p, h) == Expansion(v + w, r + u, q + p, h)
  {
    assert h * r + h * u == h * (r + u) && h * h * q + h * h * p == h * h * (q + p);
  }

  lemma ConstantAndScaled(a: real, x: real, v: real, r: real, q: real, h: real)
    ensures a + Times(x, Expansion(v, r, q, h)) == Expansion(a + Times(x, v), Times(x, r), Times(x, q), h)
  {
    ScaledExpands(x, v, r, q, h);
  }

  lemma EnvelopeParts(amplitude: real, k: real, c: real, s: real)
    ensures EnvelopeUp(amplitude, k, c, s) ==
      Envelope(0.5 * amplitude + Times(-0.5 * amplitude, c), Times(0.5 * amplitude * k, s),
               Times(0.5 * amplitude * k, k * c))
    ensures EnvelopeDown(amplitude, k, c, s) ==
      Envelope(0.5 * amplitude + Times(0.5 * amplitude, c), Times(-0.5 * amplitude * k, s),
               Times(-0.5 * amplitude * k, k * c))
    ensures Times(-0.5 * amplitude, -k * s) == Times(0.5 * amplitude * k, s)
    ensures Times(0.5 * amplitude, -k * s) == Times(-0.5 * amplitude * k, s)
  {
  }

  /** While (c, s) turns at speed k, up to second order in the time h, the envelope changes at the rate
      `da`, and that one at the rate `dda`. */
  lemma EnvelopeRates(amplitude: real, k: real, c: real, s: real, q: real, p: real, h: real)
    ensures var up := EnvelopeUp(amplitude, k, c, s);
      && EnvelopeUp(amplitude, k, Expansion(c, -k * s, q, h), s).a ==
         Expansion(up.a, up.da, Times(-0.5 * amplitude, q), h)
      && EnvelopeUp(amplitude, k, c, Expansion(s, k * c, p, h)).da ==
         Expansion(up.da, up.dda, Times(0.5 * amplitude * k, p), h)
  {
    EnvelopeParts(amplitude, k, c, s);
    EnvelopeParts(amplitude, k, Expansion(c, -k * s, q, h), s);
    EnvelopeParts(amplitude, k, c, Expansion(s, k * c, p, h));
    ConstantAndScaled(0.5 * amplitude, -0.5 * amplitude, c, -k * s, q, h);
    ScaledExpands(0.5 * amplitude * k, s, k * c, p, h);
  }

  /** The same for ramping down. */
  lemma EnvelopeDownRates(amplitude: real, k: real, c: real, s: real, q: real, p: real, h: real)
    ensures var down := EnvelopeDown(amplitude, k, c, s);
      && EnvelopeDown(amplitude, k, Expansion(c, -k * s, q, h), s).a ==
         Expansion(down.a, down.da, Times(0.5 * amplitude, q), h)
      && EnvelopeDown(amplitude, k, c, Expansion(s, k * c, p, h)).da ==
         Expansion(down.da, down.dda, Times(-0.5 * amplitude * k, p), h)
  {
    EnvelopeParts(amplitude, k, c, s);
    EnvelopeParts(amplitude, k, Expansion(c, -k * s, q, h), s);
    EnvelopeParts(amplitude, k, c, Expansion(s, k * c, p, h));
    ConstantAndScaled(0.5 * amplitude, 0.5 * amplitude, c, -k * s, q, h);
    ScaledExpands(-0.5 * amplitude * k, s, k * c, p, h);
  }

  function Position(center: real, e: Envelope, m: Angle): real {
    center + e.a * m.sin
  }

  /** While the envelope changes at its rate and the angle turns at speed omega, the position changes at
      the rate of the velocity: what is left over is of second order in the time h. */
  lemma VelocityIsDerivative(center: real, e: Envelope, omega: real, m: Angle, q: real, p: real, h: real)
    ensures Position(center, e.(a := Expansion(e.a, e.da, q, h)), m.(sin := Expansion(m.sin, omega * m.cos, p, h))) ==
      Expansion(Position(center, e, m), Velocity(e, omega, m),
                ProductRest(e.a, e.da, q, m.sin, omega * m.cos, p, h), h)
  {
    var turning := omega * m.cos;
    PositionExpands(center, e.a, e.da, q, m.sin, turning, p, h);
    VelocityIs(e.a, e.da, e.dda, omega, m.cos, m.sin);
  }

  lemma PositionExpands(center: real, a: real, da: real, q: real, s: real, turning: real, p: real, h: real)
    ensures center + Expansion(a, da, q, h) * Expansion(s, turning, p, h) ==
      Expansion(center + a * s, Times(da, s) + Times(a, turning), ProductRest(a, da, q, s, turning, p, h), h)
  {
    ProductExpands(a, da, q, s, turning, p, h);
  }

  /** In the same way the velocity changes at the rate of the acceleration. */
  lemma AccelerationIsDerivative(e: Envelope, omega: real, m: Angle, q: real, d: real, p: real, g: real, h: real)
    ensures Velocity(Envelope(Expansion(e.a, e.da, q, h), Expansion(e.da, e.dda, d, h), e.dda), omega,
                     Angle(Expansion(m.cos, -omega * m.sin, g, h), Expansion(m.sin, omega * m.cos, p, h))) ==
      Expansion(Velocity(e, omega, m), Acceleration(e, omega, m),
                ProductRest(e.da, e.dda, d, m.sin, omega * m.cos, p, h) +
                Times(omega, ProductRest(e.a, e.da, q, m.cos, -omega * m.sin, g, h)), h)
  {
    var rising, falling := omega * m.cos, -omega * m.sin;
    VelocityExpands(e, omega, m.cos, m.sin, rising, falling, q, d, p, g, h);
    RatesTogether(e, omega, m.cos, m.sin);
  }

  /** The same with the rates of sine and cosine given. */
  lemma VelocityExpands(e: Envelope, omega: real, c: real, s: real, rising: real, falling: real, q: real, d: real,
                        p: real, g: real, h: real)
    ensures Velocity(Envelope(Expansion(e.a, e.da, q, h), Expansion(e.da, e.dda, d, h), e.dda), omega,
                     Angle(Expansion(c, falling, g, h), Expansion(s, rising, p, h))) ==
      Expansion(Times(e.da, s) + Times(omega, Times(e.a, c)),
                Times(e.dda, s) + Times(e.da, rising) + Times(omega, Times(e.da, c) + Times(e.a, falling)),
                ProductRest(e.da, e.dda, d, s, rising, p, h) +
                Times(omega, ProductRest(e.a, e.da, q, c, falling, g, h)), h)
  {
    VelocityParts(Expansion(e.a, e.da, q, h), Expansion(e.da, e.dda, d, h), e.dda, omega,
                  Expansion(c, falling, g, h), Expansion(s, rising, p, h));
    ProductExpands(e.da, e.dda, d, s, rising, p, h);
    ProductExpands(e.a, e.da, q, c, falling, g, h);
    Combined(Times(e.da, s), Times(e.dda, s) + Times(e.da, rising), ProductRest(e.da, e.dda, d, s, rising, p, h), omega,
             Times(e.a, c), Times(e.da, c) + Times(e.a, falling), ProductRest(e.a, e.da, q, c, falling, g, h), h);
  }

  lemma Combined(v: real, r: real, q: real, omega: real, w: real, u: real, p: real, h: real)
    ensures Expansion(v, r, q, h) + Times(omega, Expansion(w, u, p, h)) ==
      Expansion(v + Times(omega, w), r + Times(omega, u), q + Times(omega, p), h)
  {
    ScaledExpands(omega, w, u, p, h);
    SumExpands(v, r, q, Times(omega, w), Times(omega, u), Times(omega, p), h);
  }

  lemma VelocityParts(a: real, da: real, dda: real, omega: real, c: real, s: real)
    ensures Velocity(Envelope(a, da, dda), omega, Angle(c, s)) == Times(da, s) + Times(omega, Times(a, c))
  {
  }

  lemma VelocityIs(a: real, da: real, dda: real, omega: real, c: real, s: real)
    ensures Velocity(Envelope(a, da, dda), omega, Angle(c, s)) == Times(da, s) + Times(a, omega * c)
  {
  }

  lemma RatesTogether(e: Envelope, omega: real, c: real, s: real)
    ensures Times(e.dda, s) + Times(e.da, omega * c) + Times(omega, Times(e.da, c) + Times(e.a, -omega * s)) ==
      Acceleration(e, omega, Angle(c, s))
    ensures Times(e.da, s) + Times(omega, Times(e.a, c)) == Velocity(e, omega, Angle(c, s))
  {
  }

  // ----- ramp acceleration = A k^2 / 4 * sin(x) * Q(cos(x))

  function Scale(amplitude: real, k: real): real {
    Times(Times(amplitude, Times(k, k)), 0.25)
  }

  lemma Ramp1(amplitude: real, k: real, c: real, s: real)
    ensures Acceleration(EnvelopeUp(amplitude, k, c, s), 2.0 * k, Angle(2.0 * c * c - 1.0, s * (2.0 * c))) ==
      Times(Scale(amplitude, k), Times(s, Q1(c)))
  {
    Bracket1(c, s);
    FactorOut(amplitude, k, 2.0, c, s, 2.0 * c * c - 1.0, s * (2.0 * c));
  }

  /** Everything but amplitude and speed. */
  function Bracket(n: real, c: real, s: real, cn: real, sn: real): real {
    c * sn + 2.0 * n * s * cn - n * n * (1.0 - c) * sn
  }

  lemma FactorOut(amplitude: real, k: real, n: real, c: real, s: real, cn: real, sn: real)
    ensures Acceleration(EnvelopeUp(amplitude, k, c, s), n * k, Angle(cn, sn)) ==
      Times(Scale(amplitude, k), 2.0 * Bracket(n, c, s, cn, sn))
  {
    var w := amplitude * (k * k);
    assert amplitude * 0.5 * k * k * c * sn == w * 0.5 * (c * sn);
    assert 2.0 * (n * k) * (amplitude * 0.5 * k * s) * cn == w * (n * s * cn);
    assert n * k * (n * k) * (amplitude * 0.5 * (1.0 - c)) * sn == w * 0.5 * (n * n * (1.0 - c) * sn);
  }

  lemma Bracket1(c: real, s: real)
    ensures 2.0 * Bracket(2.0, c, s, 2.0 * c * c - 1.0, s * (2.0 * c)) == Times(s, Q1(c))
  {
  }

  lemma Bracket2(c: real, s: real)
    ensures 2.0 * Bracket(4.0, c, s, 8.0 * c * c * c * c - 8.0 * c * c + 1.0, s * (8.0 * c * c * c - 4.0 * c)) ==
      Times(s, Q2(c))
  {
  }

  lemma Ramp2(amplitude: real, k: real, c: real, s: real)
    ensures Acceleration(EnvelopeUp(amplitude, k, c, s), 4.0 * k,
                         Angle(8.0 * c * c * c * c - 8.0 * c * c + 1.0, s * (8.0 * c * c * c - 4.0 * c))) ==
      Times(Scale(amplitude, k), Times(s, Q2(c)))
  {
    Bracket2(c, s);
    FactorOut(amplitude, k, 4.0, c, s, 8.0 * c * c * c * c - 8.0 * c * c + 1.0, s * (8.0 * c * c * c - 4.0 * c));
  }

  /** For both ramp lengths and every angle. */
  lemma RampAccelerationIs(r: Cycles, amplitude: real, k: real, c: real, s: real)
    requires OnCircle(c, s)
    ensures RampAcceleration(r, amplitude, k, c, s) == Times(Scale(amplitude, k), Times(s, Eval(Q(r), c)))
  {
    if r == 1 {
      Doubled(c, s);
      FormOfQ1(c);
      Ramp1(amplitude, k, c, s);
    } else {
      Quadrupled(c, s);
      FormOfQ2(c);
      Ramp2(amplitude, k, c, s);
    }
  }

  // ----- ramping down

  function RampDownAcceleration(r: Cycles, amplitude: real, k: real, c: real, s: real): real {
    Acceleration(EnvelopeDown(amplitude, k, c, s), 2.0 * r as real * k, Multiple(2 * r as nat, c, s))
  }

  lemma TurnMirrored(a: real, b: real, c: real, s: real)
    ensures var t := Turn(Angle(a, b), c, s);
      && Turn(Angle(a, -b), -c, s) == Angle(-t.cos, t.sin)
      && Turn(Angle(-a, b), -c, s) == Angle(t.cos, -t.sin)
  {
  }

  /** The multiples of the mirrored angle. */
  lemma {:induction false} Mirrored(n: nat, c: real, s: real)
    ensures var m := Multiple(n, c, s);
      Multiple(n, -c, s) == if n % 2 == 0 then Angle(m.cos, -m.sin) else Angle(-m.cos, m.sin)
  {
    if n > 0 {
      Mirrored(n - 1, c, s);
      var m := Multiple(n - 1, c, s);
      TurnMirrored(m.cos, m.sin, c, s);
    }
  }

  lemma ReversedSign(e: Envelope, omega: real, m: Angle)
    ensures Acceleration(Envelope(e.a, -e.da, e.dda), omega, Angle(m.cos, -m.sin)) == -Acceleration(e, omega, m)
  {
  }

  /** Ramping down is ramping up run backwards, with the sign turned. */
  lemma DownIsReversedUp(r: Cycles, amplitude: real, k: real, c: real, s: real)
    ensures RampDownAcceleration(r, amplitude, k, c, s) == -RampAcceleration(r, amplitude, k, -c, s)
  {
    Mirrored(2 * r as nat, c, s);
    var down, up := EnvelopeDown(amplitude, k, c, s), EnvelopeUp(amplitude, k, -c, s);
    assert up == Envelope(down.a, -down.da, down.dda);
    ReversedSign(down, 2.0 * r as real * k, Multiple(2 * r as nat, c, s));
  }

  // ----- position and velocity

  predicate IsAngle(m: Angle) {
    OnCircle(m.cos, m.sin)
  }

  lemma CosInRange(c: real, s: real)
    requires OnCircle(c, s)
    ensures -1.0 <= c <= 1.0 && -1.0 <= s <= 1.0
  {
    UnitRange(c, s);
    UnitRange(s, c);
  }

  lemma UnitRange(c: real, s: real)
    requires s * s + c * c == 1.0
    ensures -1.0 <= c <= 1.0
  {
    if c > 1.0 {
      Scaled(1.0, c, c);
    } else if c < -1.0 {
      Scaled(1.0, -c, -c);
    }
  }

  /** (x*c + y*s)^2 <= x^2 + y^2 on the unit circle. */
  lemma CauchySchwarz(x: real, y: real, c: real, s: real)
    requires OnCircle(c, s)
    ensures Times(y * s + x * c, y * s + x * c) <= x * x + y * y
  {
    var cross := y * c - x * s;
    assert cross * cross >= 0.0;
    assert (x * x + y * y) * (s * s + c * c) == x * x + y * y;
  }

  lemma Positive(x: real, y: real)
    requires 0.0 < x && 0.0 < y
    ensures 0.0 < x * y
  {
  }

  lemma StrictSquare(x: real, y: real)
    requires 0.0 <= x < y
    ensures x * x < y * y
  {
    Positive(y - x, y + x);
    assert (y - x) * (y + x) == y * y - x * x;
  }

  lemma SquareRootMonotone(x: real, y: real)
    requires 0.0 <= y && Times(x, x) <= Times(y, y)
    ensures Abs(x) <= y
  {
    if x > y {
      StrictSquare(y, x);
    } else if -x > y {
      StrictSquare(y, -x);
    }
  }

  lemma SquareBelowSquare(x: real, y: real)
    requires Abs(x) <= y
    ensures x * x <= y * y
  {
    ProductBelow(Abs(x), Abs(x), y, y);
    AbsProduct(x, x);
  }

  /** The envelope stays inside the amplitude and turns at most at half speed, up or down. */
  lemma EnvelopeInRange(amplitude: real, k: real, c: real, s: real)
    requires amplitude > 0.0 && k > 0.0 && OnCircle(c, s)
    ensures var up, down := EnvelopeUp(amplitude, k, c, s), EnvelopeDown(amplitude, k, c, s);
      && 0.0 <= up.a <= amplitude && Abs(up.da) <= Times(amplitude, 0.5 * k)
      && 0.0 <= down.a <= amplitude && Abs(down.da) <= Times(amplitude, 0.5 * k)
  {
    CosInRange(c, s);
    ProductBelow(1.0 - c, amplitude, 2.0, amplitude);
    ProductBelow(1.0 + c, amplitude, 2.0, amplitude);
    ProductBelow(0.5 * k, amplitude, 0.5 * k, amplitude);
    ProductMagnitudeReal(amplitude * 0.5 * k, s);
    assert amplitude * 0.5 * k * s == Times(amplitude * 0.5 * k, s);
    assert -amplitude * 0.5 * k * s == Times(-(amplitude * 0.5 * k), s);
  }

  lemma ProductMagnitudeReal(x: real, s: real)
    requires 0.0 <= x && -1.0 <= s <= 1.0
    ensures Abs(Times(x, s)) <= x && Abs(Times(-x, s)) <= x
  {
    Bound(x, s);
    assert Times(-x, s) == -Times(x, s);
  }

  lemma Bound(x: real, s: real)
    requires 0.0 <= x && -1.0 <= s <= 1.0
    ensures -x <= Times(x, s) <= x
  {
    BetweenRight(x, s, -1.0, 1.0);
    assert Times(x, -1.0) == -x && Times(x, 1.0) == x;
  }

  /** velocityUpperBound: `hypot` is the length of (omega, k / 2). */
  lemma VelocityIsBounded(e: Envelope, amplitude: real, omega: real, k: real, hypot: real, m: Angle)
    requires amplitude > 0.0 && omega > 0.0 && k > 0.0 && IsAngle(m)
    requires 0.0 <= e.a <= amplitude && Abs(e.da) <= Times(amplitude, 0.5 * k)
    requires 0.0 <= hypot && hypot * hypot == omega * omega + 0.5 * k * (0.5 * k)
    ensures Abs(Velocity(e, omega, m)) <= Times(amplitude, hypot)
  {
    CauchySchwarz(e.a * omega, e.da, m.cos, m.sin);
    ProductBelow(e.a, omega, amplitude, omega);
    SquareBelowSquare(e.a * omega, amplitude * omega);
    SquareBelowSquare(e.da, Times(amplitude, 0.5 * k));
    SquaresTogether(amplitude, omega, 0.5 * k, hypot);
    ProductBelow(0.0, 0.0, amplitude, hypot);
    SquareRootMonotone(Velocity(e, omega, m), Times(amplitude, hypot));
  }

  /** Without a ramp the amplitude never changes, and the bound is amplitude times omega. */
  lemma FlatVelocityIsBounded(amplitude: real, omega: real, m: Angle)
    requires amplitude > 0.0 && omega > 0.0 && IsAngle(m)
    ensures Abs(Velocity(Flat(amplitude), omega, m)) <= Times(amplitude, omega)
  {
    CosInRange(m.cos, m.sin);
    Positive(amplitude, omega);
    ProductMagnitudeReal(Times(amplitude, omega), m.cos);
    FlatVelocityIs(amplitude, omega, m.cos, m.sin);
  }

  lemma FlatVelocityIs(amplitude: real, omega: real, c: real, s: real)
    ensures Velocity(Flat(amplitude), omega, Angle(c, s)) == Times(Times(amplitude, omega), c)
  {
  }

  lemma SquaresTogether(a: real, x: real, y: real, h: real)
    requires h * h == x * x + y * y
    ensures a * x * (a * x) + Times(a, y) * Times(a, y) == Times(Times(a, h), Times(a, h))
  {
    assert a * a * (h * h) == a * a * (x * x + y * y);
  }

  // ----- accelerationUpperBound

  datatype Parameters = Parameters(center: Double, amplitude: Double, frequency: Double, cycles: Double,
                                   rampCycles: Double)

  const BUDGET: nat := 100000
  const MAX_CYCLES: real := 20.0

  predicate Supported(t: Parameters) {
    && t.center.Fin? && t.amplitude.Fin? && t.amplitude.value > 0.0 && t.frequency.Fin? && t.frequency.value > 0.0
    && Within(t.cycles, 0.0, MAX_CYCLES) && t.cycles.value.Floor as real == t.cycles.value
    && t.rampCycles in {Fin(1.0), Fin(2.0)}
  }

  function RampCycles(t: Parameters): Cycles {
    if t.rampCycles == Fin(1.0) then 1 else 2
  }

  const WHOLE := Interval(-1.0, 1.0)

  /** An end of the ramp, or a place where the derivative of its acceleration vanishes. */
  predicate Critical(r: Cycles, c: real, s: real) {
    OnCircle(c, s) && (c == 1.0 || c == -1.0 || Eval(P(r), c) == 0.0)
  }

  /** `m` bounds the acceleration formula: at the critical points of both ramps and all along the
      flat part, `k` being the speed of the envelope's angle. */
  ghost predicate Covers(r: Cycles, amplitude: real, k: real, m: real) {
    && (forall c, s :: Critical(r, c, s) ==> Abs(RampAcceleration(r, amplitude, k, c, s)) <= m)
    && (forall c, s :: Critical(r, c, s) ==> Abs(RampDownAcceleration(r, amplitude, k, -c, s)) <= m)
    && (forall a :: IsAngle(a) ==> Abs(Acceleration(Flat(amplitude), 2.0 * r as real * k, a)) <= m)
  }

  /** `m` bounds |s * Q(c)| at the critical points. */
  ghost predicate BoundsCritical(r: Cycles, m: real) {
    forall c, s :: Critical(r, c, s) ==> RampSize(Q(r), c, s) <= m
  }

  lemma FactorBounds(f: Rounding, r: Cycles, inner: real)
    requires Sound(f) && BoundsRoots(P(r), Q(r), WHOLE, inner)
    ensures BoundsCritical(r, Max(Max(RampMagnitude(f, Q(r), Interval(-1.0, -1.0)),
                                      RampMagnitude(f, Q(r), Interval(1.0, 1.0))), inner))
  {
    forall c, s | Critical(r, c, s)
      ensures RampSize(Q(r), c, s) <=
        Max(Max(RampMagnitude(f, Q(r), Interval(-1.0, -1.0)), RampMagnitude(f, Q(r), Interval(1.0, 1.0))), inner)
    {
      if c == 1.0 || c == -1.0 {
        RampMagnitudeBounds(f, Q(r), Interval(c, c), c, s);
      } else {
        CosInRange(c, s);
        assert Stationary(P(r), WHOLE, c, s);
      }
    }
  }

  /** From the factor at the critical points to the ramp acceleration there. */
  lemma RampsCovered(f: Rounding, r: Cycles, amplitude: real, k: real, factor: real, scale: Interval, m: real)
    requires Sound(f) && BoundsCritical(r, factor) && In(Scale(amplitude, k), scale) && 0.0 <= Scale(amplitude, k)
    requires f.up(f.times(scale.hi, factor)) <= m
    ensures forall c, s :: Critical(r, c, s) ==> Abs(RampAcceleration(r, amplitude, k, c, s)) <= m
    ensures forall c, s :: Critical(r, c, s) ==> Abs(RampDownAcceleration(r, amplitude, k, -c, s)) <= m
  {
    forall c, s | Critical(r, c, s)
      ensures Abs(RampAcceleration(r, amplitude, k, c, s)) <= m
      ensures Abs(RampDownAcceleration(r, amplitude, k, -c, s)) <= m
    {
      RampCoveredAt(f, r, amplitude, k, factor, scale, m, c, s);
      DownIsReversedUp(r, amplitude, k, -c, s);
    }
  }

  lemma RampCoveredAt(f: Rounding, r: Cycles, amplitude: real, k: real, factor: real, scale: Interval, m: real,
                      c: real, s: real)
    requires Sound(f) && In(Scale(amplitude, k), scale) && 0.0 <= Scale(amplitude, k)
    requires OnCircle(c, s) && RampSize(Q(r), c, s) <= factor && f.up(f.times(scale.hi, factor)) <= m
    ensures Abs(RampAcceleration(r, amplitude, k, c, s)) <= m
  {
    RampAccelerationIs(r, amplitude, k, c, s);
    ProductMagnitude(f, Scale(amplitude, k), Times(s, Eval(Q(r), c)), scale.hi, factor);
  }

  lemma FlatIs(amplitude: real, omega: real, c: real, s: real)
    ensures Acceleration(Flat(amplitude), omega, Angle(c, s)) == -Times(Times(amplitude, Times(omega, omega)), s)
  {
  }

  lemma FlatCovered(amplitude: real, omega: real, m: real, a: Angle)
    requires amplitude > 0.0 && IsAngle(a) && Times(amplitude, Times(omega, omega)) <= m
    ensures Abs(Acceleration(Flat(amplitude), omega, a)) <= m
  {
    CosInRange(a.cos, a.sin);
    NonNegativeSquare(omega);
    ProductBelow(0.0, 0.0, amplitude, Times(omega, omega));
    ProductMagnitudeReal(Times(amplitude, Times(omega, omega)), a.sin);
    FlatIs(amplitude, omega, a.cos, a.sin);
  }

  lemma NonNegativeSquare(x: real)
    ensures 0.0 <= x * x
  {
  }

  /** The interval of a product of three. */
  function Triple(f: Rounding, a: Interval, b: Interval, c: real): Interval {
    Multiply(f, Multiply(f, a, b), Interval(c, c))
  }

  lemma TripleEncloses(f: Rounding, a: Interval, b: Interval, c: real, x: real, y: real)
    requires Sound(f) && In(x, a) && In(y, b)
    ensures In(Times(Times(x, y), c), Triple(f, a, b, c))
  {
    MultiplyEncloses(f, a, b, x, y);
    MultiplyEncloses(f, Multiply(f, a, b), Interval(c, c), Times(x, y), c);
  }

  /** dx/dt of the envelope's angle, and of the sine's: pi * frequency * u. */
  function Speed(pi: real, frequency: real, u: real): real {
    Times(Times(pi, frequency), u)
  }

  function Inverse(r: Cycles): real {
    if r == 1 then 1.0 else 0.5
  }

  lemma SpeedsAgree(pi: real, frequency: real, r: Cycles)
    ensures Speed(pi, frequency, 2.0) == 2.0 * r as real * Speed(pi, frequency, Inverse(r))
  {
    var x := Times(pi, frequency);
    if r == 1 {
      assert r as real == 1.0 && Times(x, 1.0) == x;
    } else {
      assert r as real == 2.0 && Times(x, 0.5) == 0.5 * x;
    }
    assert Times(x, 2.0) == 2.0 * x;
  }

  function Guarded(f: Rounding, bound: real): real {
    f.up(f.plus(bound, f.up(f.times(0.0000000001, Max(1.0, bound)))))
  }

  lemma GuardedIsAbove(f: Rounding, bound: real)
    requires Sound(f)
    ensures bound <= Guarded(f, bound)
  {
    var extra := f.times(0.0000000001, Max(1.0, bound));
    assert TimesSound(f, 0.0000000001, Max(1.0, bound));
    assert PlusSound(f, bound, f.up(extra));
  }

  lemma ScaleIsEnclosed(f: Rounding, a: real, frequency: real, pi: real, piInterval: Interval, u: real)
    requires Sound(f) && In(pi, piInterval)
    ensures var k := Triple(f, piInterval, Interval(frequency, frequency), u);
      && In(Speed(pi, frequency, u), k)
      && In(Times(Speed(pi, frequency, u), Speed(pi, frequency, u)), Multiply(f, k, k))
      && In(Scale(a, Speed(pi, frequency, u)), Triple(f, Interval(a, a), Multiply(f, k, k), 0.25))
      && In(Times(a, Times(Speed(pi, frequency, u), Speed(pi, frequency, u))),
            Multiply(f, Interval(a, a), Multiply(f, k, k)))
  {
    var k, speed := Triple(f, piInterval, Interval(frequency, frequency), u), Speed(pi, frequency, u);
    TripleEncloses(f, piInterval, Interval(frequency, frequency), u, pi, frequency);
    MultiplyEncloses(f, k, k, speed, speed);
    TripleEncloses(f, Interval(a, a), Multiply(f, k, k), 0.25, a, Times(speed, speed));
    MultiplyEncloses(f, Interval(a, a), Multiply(f, k, k), a, Times(speed, speed));
  }

  lemma ScaleIsNonNegative(amplitude: real, k: real)
    requires amplitude > 0.0
    ensures 0.0 <= Scale(amplitude, k)
  {
    NonNegativeSquare(k);
    ProductBelow(0.0, 0.0, amplitude, Times(k, k));
  }

  /** The bound from its parts, whatever number pi is inside its interval. */
  lemma PartsCover(f: Rounding, r: Cycles, amplitude: real, frequency: real, pi: real, piInterval: Interval,
                   factor: real, m: real)
    requires Sound(f) && amplitude > 0.0 && In(pi, piInterval) && BoundsCritical(r, factor)
    requires var k, omega := Triple(f, piInterval, Interval(frequency, frequency), Inverse(r)),
                             Triple(f, piInterval, Interval(frequency, frequency), 2.0);
      && f.up(f.times(Triple(f, Interval(amplitude, amplitude), Multiply(f, k, k), 0.25).hi, factor)) <= m
      && Multiply(f, Interval(amplitude, amplitude), Multiply(f, omega, omega)).hi <= m
    ensures Covers(r, amplitude, Speed(pi, frequency, Inverse(r)), m)
  {
    var k, omega := Triple(f, piInterval, Interval(frequency, frequency), Inverse(r)),
                    Triple(f, piInterval, Interval(frequency, frequency), 2.0);
    ScaleIsEnclosed(f, amplitude, frequency, pi, piInterval, Inverse(r));
    ScaleIsEnclosed(f, amplitude, frequency, pi, piInterval, 2.0);
    ScaleIsNonNegative(amplitude, Speed(pi, frequency, Inverse(r)));
    RampsCovered(f, r, amplitude, Speed(pi, frequency, Inverse(r)), factor,
                 Triple(f, Interval(amplitude, amplitude), Multiply(f, k, k), 0.25), m);
    SpeedsAgree(pi, frequency, r);
    forall a | IsAngle(a)
      ensures Abs(Acceleration(Flat(amplitude), 2.0 * r as real * Speed(pi, frequency, Inverse(r)), a)) <= m
    {
      FlatCovered(amplitude, Speed(pi, frequency, 2.0), m, a);
    }
  }

  /** The larger of the flat part's bound and the ramps'. */
  function Largest(f: Rounding, r: Cycles, amplitude: real, frequency: real, piInterval: Interval, factor: real): real {
    var a := Interval(amplitude, amplitude);
    var k := Triple(f, piInterval, Interval(frequency, frequency), Inverse(r));
    var omega := Triple(f, piInterval, Interval(frequency, frequency), 2.0);
    var scale := Triple(f, a, Multiply(f, k, k), 0.25);
    Max(Multiply(f, a, Multiply(f, omega, omega)).hi, f.up(f.times(scale.hi, factor)))
  }

  lemma LargestCovers(f: Rounding, r: Cycles, amplitude: real, frequency: real, pi: real, piInterval: Interval,
                      factor: real)
    requires Sound(f) && amplitude > 0.0 && In(pi, piInterval) && BoundsCritical(r, factor)
    ensures Covers(r, amplitude, Speed(pi, frequency, Inverse(r)),
                   Guarded(f, Largest(f, r, amplitude, frequency, piInterval, factor)))
  {
    var largest := Largest(f, r, amplitude, frequency, piInterval, factor);
    GuardedIsAbove(f, largest);
    PartsCover(f, r, amplitude, frequency, pi, piInterval, factor, Guarded(f, largest));
  }

  /** The bound from what the bisection returned, before it is tested. */
  function BoundFrom(f: Rounding, t: Parameters, kPi: real, inner: real): real
    requires Supported(t)
  {
    var r := RampCycles(t);
    var ends := Max(RampMagnitude(f, Q(r), Interval(-1.0, -1.0)), RampMagnitude(f, Q(r), Interval(1.0, 1.0)));
    Guarded(f, Largest(f, r, t.amplitude.value, t.frequency.value, Interval(f.down(kPi), f.up(kPi)), Max(ends, inner)))
  }

  function Point(x: real): Interval {
    Interval(x, x)
  }

  lemma PointProduct(f: Rounding, x: real, y: real)
    requires Exact(f)
    ensures Multiply(f, Point(x), Point(y)) == Point(Times(x, y))
  {
    EndsAreAttained(f, Point(x), Point(y));
  }

  lemma PointTriple(f: Rounding, x: real, y: real, u: real)
    requires Exact(f)
    ensures Triple(f, Point(x), Point(y), u) == Point(Times(Times(x, y), u))
  {
    PointProduct(f, x, y);
    PointProduct(f, Times(x, y), u);
  }

  /** The bound is not wider than its parts: without rounding it is the larger of the flat part's
      acceleration and the ramps' at the stationary magnitude, plus the guard of 1e-10. */
  lemma BoundIsTight(f: Rounding, t: Parameters, pi: real, inner: real)
    requires Supported(t) && Exact(f) && f.sqrt(0.0) == 0.0
    ensures var k, omega := Speed(pi, t.frequency.value, Inverse(RampCycles(t))), Speed(pi, t.frequency.value, 2.0);
      var largest := Max(Times(t.amplitude.value, Times(omega, omega)),
                         Times(Scale(t.amplitude.value, k), Max(0.0, inner)));
      BoundFrom(f, t, pi, inner) == largest + Times(0.0000000001, Max(1.0, largest))
  {
    var r, amplitude, frequency := RampCycles(t), t.amplitude.value, t.frequency.value;
    PointMagnitudeIsExact(f, Q(r), 1.0, 0.0);
    PointMagnitudeIsExact(f, Q(r), -1.0, 0.0);
    PointTriple(f, pi, frequency, Inverse(r));
    PointTriple(f, pi, frequency, 2.0);
    var k, omega := Speed(pi, frequency, Inverse(r)), Speed(pi, frequency, 2.0);
    PointProduct(f, k, k);
    PointProduct(f, omega, omega);
    PointProduct(f, amplitude, Times(omega, omega));
    PointTriple(f, amplitude, Times(k, k), 0.25);
  }

  /** What the bisection of the whole range finds. */
  function Found(f: Rounding, r: Cycles): real {
    Bisected(BisectionOf(f, P(r), Q(r)), WHOLE, 0, BUDGET).largest
  }

  /** There is a bound if and only if the parameters are supported and the one computed is finite. It
      is that one, and covers the exact formula under every sound rounding, for any pi between the
      neighbours of its constant. */
  method AccelerationUpperBound(f: Rounding, t: Parameters, kPi: real) returns (bound: Option<real>)
    ensures bound.Some? <==> Supported(t) && f.finite(BoundFrom(f, t, kPi, Found(f, RampCycles(t))))
    ensures bound.Some? ==> bound.value == BoundFrom(f, t, kPi, Found(f, RampCycles(t)))
    ensures bound.Some? && Sound(f) ==> forall pi | In(pi, Interval(f.down(kPi), f.up(kPi))) ::
      Covers(RampCycles(t), t.amplitude.value, Speed(pi, t.frequency.value, Inverse(RampCycles(t))), bound.value)
  {
    if !Supported(t) {
      return None;
    }
    var r := RampCycles(t);
    var inner, left, _ := StationaryMagnitude(f, P(r), Q(r), WHOLE, 0, BUDGET);
    assert inner == Search(inner, left).largest == Found(f, r);
    var guarded := BoundFrom(f, t, kPi, inner);
    if Sound(f) {
      FoundCovers(f, t, kPi, inner);
    }
    if !f.finite(guarded) {
      return None;
    }
    return Some(guarded);
  }

  lemma FoundCovers(f: Rounding, t: Parameters, kPi: real, inner: real)
    requires Supported(t) && Sound(f) && BoundsRoots(P(RampCycles(t)), Q(RampCycles(t)), WHOLE, inner)
    ensures forall pi | In(pi, Interval(f.down(kPi), f.up(kPi))) ::
      Covers(RampCycles(t), t.amplitude.value, Speed(pi, t.frequency.value, Inverse(RampCycles(t))),
             BoundFrom(f, t, kPi, inner))
  {
    var r, amplitude, frequency := RampCycles(t), t.amplitude.value, t.frequency.value;
    var piInterval := Interval(f.down(kPi), f.up(kPi));
    var ends := Max(RampMagnitude(f, Q(r), Interval(-1.0, -1.0)), RampMagnitude(f, Q(r), Interval(1.0, 1.0)));
    FactorBounds(f, r, inner);
    forall pi | In(pi, piInterval)
      ensures Covers(r, amplitude, Speed(pi, frequency, Inverse(r)), BoundFrom(f, t, kPi, inner))
    {
      LargestCovers(f, r, amplitude, frequency, pi, piInterval, Max(ends, inner));
    }
  }

  /** Where another point dominates, its bound holds; by the extreme value theorem some critical
      point dominates everywhere on the ramp. */
  lemma DominatedIsCovered(r: Cycles, amplitude: real, k: real, m: real, c: real, s: real, c0: real, s0: real)
    requires amplitude > 0.0 && OnCircle(c, s) && OnCircle(c0, s0)
    requires RampSize(Q(r), c, s) <= RampSize(Q(r), c0, s0) && Abs(RampAcceleration(r, amplitude, k, c0, s0)) <= m
    ensures Abs(RampAcceleration(r, amplitude, k, c, s)) <= m
    ensures Abs(RampDownAcceleration(r, amplitude, k, -c, s)) <= m
  {
    RampAccelerationIs(r, amplitude, k, c, s);
    RampAccelerationIs(r, amplitude, k, c0, s0);
    ScaleIsNonNegative(amplitude, k);
    ScaledSizes(Scale(amplitude, k), Times(s, Eval(Q(r), c)), Times(s0, Eval(Q(r), c0)));
    DownIsReversedUp(r, amplitude, k, -c, s);
  }

  lemma ScaledSizes(k: real, x: real, y: real)
    requires 0.0 <= k && Abs(x) <= Abs(y)
    ensures Abs(Times(k, x)) <= Abs(Times(k, y))
  {
    AbsProduct(k, x);
    AbsProduct(k, y);
    BetweenRight(k, Abs(x), 0.0, Abs(y));
    NonNegativeProduct(k, Abs(y));
  }

  lemma NonNegativeProduct(x: real, y: real)
    requires 0.0 <= x && 0.0 <= y
    ensures 0.0 == Times(x, 0.0) <= Times(x, y)
  {
  }
}
