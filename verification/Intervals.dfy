/**
 Outward-rounded interval arithmetic and the root exclusion of src/hil_trajectory.cpp.

 A rounding is any choice of rounded operations with neighbours `down` and `up` such that the true
 value of an operation lies between the neighbours of its rounded one, as sections 4.3.1 and 5.3.1
 of IEEE 754-2019 give it for round-to-nearest and nextDown/nextUp. `finite` is the test of a final
 result; an intermediate one that overflows is not modelled.
 */
module Intervals {

  datatype Rounding = Rounding(plus: (real, real) -> real, times: (real, real) -> real, sqrt: real -> real,
                               down: real -> real, up: real -> real, finite: real -> bool)

  predicate PlusSound(f: Rounding, x: real, y: real) {
    f.down(f.plus(x, y)) <= x + y <= f.up(f.plus(x, y))
  }

  predicate TimesSound(f: Rounding, x: real, y: real) {
    f.down(f.times(x, y)) <= x * y <= f.up(f.times(x, y))
  }

  predicate SqrtSound(f: Rounding, x: real, y: real) {
    0.0 <= y && y * y <= x ==> y <= f.up(f.sqrt(x))
  }

  predicate StepsMonotone(f: Rounding, x: real, y: real) {
    x <= y ==> f.down(x) <= f.down(y) && f.up(x) <= f.up(y)
  }

  ghost predicate Sound(f: Rounding) {
    && (forall x, y :: PlusSound(f, x, y))
    && (forall x, y :: TimesSound(f, x, y))
    && (forall x, y :: SqrtSound(f, x, y))
    && (forall x, y :: StepsMonotone(f, x, y))
  }

  /** Such roundings exist: exact operations, with neighbours one apart. */
  lemma SomeRoundingIsSound()
    ensures exists f :: Sound(f)
  {
    var f := Rounding((x, y) => x + y, (x, y) => x * y, x => if x < 1.0 then 1.0 else x, x => x - 1.0, x => x + 1.0,
                      _ => true);
    forall x: real, y: real
      ensures SqrtSound(f, x, y)
    {
      if 1.0 < y && y * y <= x {
        Scaled(1.0, y, y);
      }
    }
    assert Sound(f);
  }

  datatype Interval = Interval(lo: real, hi: real)

  predicate In(x: real, i: Interval) {
    i.lo <= x <= i.hi
  }

  function Min(x: real, y: real): real {
    if x <= y then x else y
  }

  function Max(x: real, y: real): real {
    if x <= y then y else x
  }

  function Abs(x: real): real {
    if x < 0.0 then -x else x
  }

  // ----- the operations

  function Add(f: Rounding, a: Interval, b: Interval): Interval {
    Interval(f.down(f.plus(a.lo, b.lo)), f.up(f.plus(a.hi, b.hi)))
  }

  function Least4(p: real, q: real, r: real, s: real): (m: real)
    ensures m <= p && m <= q && m <= r && m <= s
  {
    Min(Min(p, q), Min(r, s))
  }

  function Greatest4(p: real, q: real, r: real, s: real): (m: real)
    ensures p <= m && q <= m && r <= m && s <= m
  {
    Max(Max(p, q), Max(r, s))
  }

  function Multiply(f: Rounding, a: Interval, b: Interval): Interval {
    var p, q, r, s := f.times(a.lo, b.lo), f.times(a.lo, b.hi), f.times(a.hi, b.lo), f.times(a.hi, b.hi);
    Interval(f.down(Least4(p, q, r, s)), f.up(Greatest4(p, q, r, s)))
  }

  function Magnitude(a: Interval): real {
    Max(Abs(a.lo), Abs(a.hi))
  }

  lemma AddEncloses(f: Rounding, a: Interval, b: Interval, x: real, y: real)
    requires Sound(f) && In(x, a) && In(y, b)
    ensures In(x + y, Add(f, a, b))
  {
    assert PlusSound(f, a.lo, b.lo) && PlusSound(f, a.hi, b.hi);
  }

  function Times(x: real, y: real): real {
    x * y
  }

  lemma Scaled(x: real, y: real, k: real)
    requires x <= y && 0.0 <= k
    ensures x * k <= y * k
  {
  }

  /** A linear function lies between its values at the ends. */
  lemma Between(x: real, lo: real, hi: real, y: real)
    requires lo <= x <= hi
    ensures (Times(lo, y) <= Times(x, y) <= Times(hi, y)) || (Times(hi, y) <= Times(x, y) <= Times(lo, y))
  {
    if y >= 0.0 {
      Scaled(lo, x, y);
      Scaled(x, hi, y);
    } else {
      Scaled(lo, x, -y);
      Scaled(x, hi, -y);
    }
  }

  lemma BetweenRight(k: real, x: real, lo: real, hi: real)
    requires lo <= x <= hi
    ensures (Times(k, lo) <= Times(k, x) <= Times(k, hi)) || (Times(k, hi) <= Times(k, x) <= Times(k, lo))
  {
    Between(x, lo, hi, k);
  }

  lemma Nested(xy: real, u: real, v: real, p: real, q: real, r: real, s: real)
    requires (u <= xy <= v || v <= xy <= u) && (p <= u <= q || q <= u <= p) && (r <= v <= s || s <= v <= r)
    ensures p <= xy || q <= xy || r <= xy || s <= xy
    ensures p >= xy || q >= xy || r >= xy || s >= xy
  {
  }

  /** Some corner is below the exact product and some corner above it ... */
  lemma ProductInCorners(al: real, ah: real, bl: real, bh: real, x: real, y: real)
    requires al <= x <= ah && bl <= y <= bh
    ensures var xy := Times(x, y);
      && (Times(al, bl) <= xy || Times(al, bh) <= xy || Times(ah, bl) <= xy || Times(ah, bh) <= xy)
      && (Times(al, bl) >= xy || Times(al, bh) >= xy || Times(ah, bl) >= xy || Times(ah, bh) >= xy)
  {
    Between(x, al, ah, y);
    BetweenRight(al, y, bl, bh);
    BetweenRight(ah, y, bl, bh);
    Nested(Times(x, y), Times(al, y), Times(ah, y), Times(al, bl), Times(al, bh), Times(ah, bl), Times(ah, bh));
  }

  /** ... and every exact corner is inside the rounded interval. */
  lemma CornerInside(f: Rounding, m: Interval, x: real, y: real)
    requires Sound(f) && m.lo <= f.down(f.times(x, y)) && f.up(f.times(x, y)) <= m.hi
    ensures In(Times(x, y), m)
  {
    assert TimesSound(f, x, y);
  }

  lemma Outward(f: Rounding, p: real, q: real, r: real, s: real)
    requires Sound(f)
    ensures var lo := f.down(Least4(p, q, r, s));
      lo <= f.down(p) && lo <= f.down(q) && lo <= f.down(r) && lo <= f.down(s)
    ensures var hi := f.up(Greatest4(p, q, r, s));
      f.up(p) <= hi && f.up(q) <= hi && f.up(r) <= hi && f.up(s) <= hi
  {
    var lo, hi := Least4(p, q, r, s), Greatest4(p, q, r, s);
    assert StepsMonotone(f, lo, p) && StepsMonotone(f, lo, q) && StepsMonotone(f, lo, r) && StepsMonotone(f, lo, s);
    assert StepsMonotone(f, p, hi) && StepsMonotone(f, q, hi) && StepsMonotone(f, r, hi) && StepsMonotone(f, s, hi);
  }

  lemma Squeezed(xy: real, p: real, q: real, r: real, s: real, m: Interval)
    requires In(p, m) && In(q, m) && In(r, m) && In(s, m)
    requires p <= xy || q <= xy || r <= xy || s <= xy
    requires p >= xy || q >= xy || r >= xy || s >= xy
    ensures In(xy, m)
  {
  }

  lemma MultiplyInside(f: Rounding, al: real, ah: real, bl: real, bh: real, x: real, y: real, m: Interval)
    requires Sound(f) && al <= x <= ah && bl <= y <= bh
    requires m == Multiply(f, Interval(al, ah), Interval(bl, bh))
    ensures In(Times(x, y), m)
  {
    Outward(f, f.times(al, bl), f.times(al, bh), f.times(ah, bl), f.times(ah, bh));
    CornerInside(f, m, al, bl);
    CornerInside(f, m, al, bh);
    CornerInside(f, m, ah, bl);
    CornerInside(f, m, ah, bh);
    ProductInCorners(al, ah, bl, bh, x, y);
    Squeezed(Times(x, y), Times(al, bl), Times(al, bh), Times(ah, bl), Times(ah, bh), m);
  }

  lemma MultiplyEncloses(f: Rounding, a: Interval, b: Interval, x: real, y: real)
    requires Sound(f) && In(x, a) && In(y, b)
    ensures In(Times(x, y), Multiply(f, a, b))
  {
    MultiplyInside(f, a.lo, a.hi, b.lo, b.hi, x, y, Multiply(f, a, b));
  }

  lemma MagnitudeBounds(a: Interval, x: real)
    requires In(x, a)
    ensures Abs(x) <= Magnitude(a)
  {
  }

  // ----- polynomials

  function Shift(v: real, x: real, c: real): real {
    v * x + c
  }

  /** (... + coefficients[1]) * x + coefficients[0], exactly. */
  function Eval(coefficients: seq<real>, x: real): real {
    if coefficients == [] then 0.0 else Shift(Eval(coefficients[1..], x), x, coefficients[0])
  }

  function Horner(f: Rounding, coefficients: seq<real>, x: Interval): Interval {
    if coefficients == [] then Interval(0.0, 0.0)
    else Add(f, Multiply(f, Horner(f, coefficients[1..], x), x), Interval(coefficients[0], coefficients[0]))
  }

  lemma HornerStep(f: Rounding, y: Interval, i: Interval, c: real, v: real, x: real)
    requires Sound(f) && In(v, y) && In(x, i)
    ensures In(Shift(v, x, c), Add(f, Multiply(f, y, i), Interval(c, c)))
  {
    var product := Multiply(f, y, i);
    MultiplyEncloses(f, y, i, v, x);
    AddEncloses(f, product, Interval(c, c), Times(v, x), c);
  }

  lemma {:induction false} HornerEncloses(f: Rounding, coefficients: seq<real>, i: Interval, x: real)
    requires Sound(f) && In(x, i)
    ensures In(Eval(coefficients, x), Horner(f, coefficients, i))
  {
    if coefficients != [] {
      HornerEncloses(f, coefficients[1..], i, x);
      HornerStep(f, Horner(f, coefficients[1..], i), i, coefficients[0], Eval(coefficients[1..], x), x);
    }
  }

  /** The accumulator loop, last coefficient first. Whatever root or value the exact polynomial has
      over the interval is inside the result. */
  method Polynomial(f: Rounding, coefficients: seq<real>, x: Interval) returns (y: Interval)
    ensures y == Horner(f, coefficients, x)
    ensures Sound(f) ==> forall v | In(v, x) :: In(Eval(coefficients, v), y)
  {
    y := Interval(0.0, 0.0);
    var k := |coefficients|;
    while k > 0
      invariant 0 <= k <= |coefficients| && y == Horner(f, coefficients[k..], x)
    {
      k := k - 1;
      assert coefficients[k..][1..] == coefficients[k + 1..];
      y := Add(f, Multiply(f, y, x), Interval(coefficients[k], coefficients[k]));
    }
    assert coefficients[0..] == coefficients;
    forall v | In(v, x) && Sound(f)
      ensures In(Eval(coefficients, v), y)
    {
      HornerEncloses(f, coefficients, x, v);
    }
  }

  // ----- |sin x * Q(cos x)|

  /** A point of the unit circle. */
  predicate OnCircle(c: real, s: real) {
    s * s + c * c == 1.0
  }

  /** The smallest |c| of the interval. */
  function Least(i: Interval): (l: real)
    ensures l >= 0.0 && forall c | In(c, i) :: l <= Abs(c)
  {
    if i.lo <= 0.0 <= i.hi then 0.0 else Min(Abs(i.lo), Abs(i.hi))
  }

  function SinUpper(f: Rounding, c: Interval): real {
    var square := Max(0.0, f.down(f.times(Least(c), Least(c))));
    f.up(f.sqrt(Max(0.0, f.up(f.plus(1.0, -square)))))
  }

  function RampMagnitude(f: Rounding, q: seq<real>, c: Interval): real {
    f.up(f.times(SinUpper(f, c), Magnitude(Horner(f, q, c))))
  }

  lemma SquareBelow(least: real, a: real, b: real)
    requires 0.0 <= least <= a && b * b + a * a == 1.0
    ensures b * b <= 1.0 - least * least
  {
    Scaled(least, a, least);
    Scaled(least, a, a);
  }

  lemma OnCircleAbs(c: real, s: real)
    requires OnCircle(c, s)
    ensures Abs(s) * Abs(s) + Abs(c) * Abs(c) == 1.0
  {
    assert -s * -s == s * s && -c * -c == c * c;
  }

  lemma RootIsBelow(f: Rounding, least: real, c: real, s: real)
    requires Sound(f) && 0.0 <= least <= Abs(c) && OnCircle(c, s)
    ensures Abs(s) <= f.up(f.sqrt(Max(0.0, f.up(f.plus(1.0, -Max(0.0, f.down(f.times(least, least))))))))
  {
    OnCircleAbs(c, s);
    SquareBelow(least, Abs(c), Abs(s));
    assert TimesSound(f, least, least);
    var square := Max(0.0, f.down(f.times(least, least)));
    assert square <= least * least;
    assert PlusSound(f, 1.0, -square);
    assert SqrtSound(f, Max(0.0, f.up(f.plus(1.0, -square))), Abs(s));
  }

  lemma SinIsBelow(f: Rounding, i: Interval, c: real, s: real)
    requires Sound(f) && In(c, i) && OnCircle(c, s)
    ensures Abs(s) <= SinUpper(f, i)
  {
    RootIsBelow(f, Least(i), c, s);
  }

  lemma ProductBelow(x: real, y: real, a: real, b: real)
    requires 0.0 <= x <= a && 0.0 <= y <= b
    ensures 0.0 <= x * y <= a * b
  {
    assert (a - x) * y >= 0.0 && a * (b - y) >= 0.0;
  }

  lemma AbsProduct(x: real, y: real)
    ensures Abs(x * y) == Abs(x) * Abs(y)
  {
    ProductBelow(0.0, 0.0, Abs(x), Abs(y));
    assert x * y == Abs(x) * Abs(y) || x * y == -(Abs(x) * Abs(y));
  }

  lemma ProductMagnitude(f: Rounding, s: real, v: real, sin: real, magnitude: real)
    requires Sound(f) && Abs(s) <= sin && Abs(v) <= magnitude
    ensures Size(s, v) <= f.up(f.times(sin, magnitude))
  {
    ProductBelow(Abs(s), Abs(v), sin, magnitude);
    AbsProduct(s, v);
    assert TimesSound(f, sin, magnitude);
  }

  function Size(s: real, v: real): real {
    Abs(Times(s, v))
  }

  /** |s * Q(c)|, exactly. */
  function RampSize(q: seq<real>, c: real, s: real): real {
    Size(s, Eval(q, c))
  }

  lemma ValueIsBelow(f: Rounding, q: seq<real>, i: Interval, c: real)
    requires Sound(f) && In(c, i)
    ensures Abs(Eval(q, c)) <= Magnitude(Horner(f, q, i))
  {
    HornerEncloses(f, q, i, c);
    MagnitudeBounds(Horner(f, q, i), Eval(q, c));
  }

  lemma RampMagnitudeFrom(f: Rounding, q: seq<real>, i: Interval, c: real, s: real)
    requires Sound(f) && In(c, i) && Abs(s) <= SinUpper(f, i)
    ensures RampSize(q, c, s) <= RampMagnitude(f, q, i)
  {
    ValueIsBelow(f, q, i, c);
    ProductMagnitude(f, s, Eval(q, c), SinUpper(f, i), Magnitude(Horner(f, q, i)));
  }

  lemma RampMagnitudeBounds(f: Rounding, q: seq<real>, i: Interval, c: real, s: real)
    requires Sound(f) && In(c, i) && OnCircle(c, s)
    ensures RampSize(q, c, s) <= RampMagnitude(f, q, i)
  {
    SinIsBelow(f, i, c, s);
    RampMagnitudeFrom(f, q, i, c, s);
  }

  // ----- exclusion

  // ----- nothing is wider than rounding makes it

  /** Sums and products are exact, with no neighbours to step to. */
  ghost predicate Exact(f: Rounding) {
    && (forall x, y :: f.plus(x, y) == x + y)
    && (forall x, y :: f.times(x, y) == Times(x, y))
    && (forall x :: f.down(x) == x == f.up(x))
  }

  /** Without rounding both ends of a product are products of ends, and those of a sum sums of ends. */
  lemma EndsAreAttained(f: Rounding, a: Interval, b: Interval)
    requires Exact(f)
    ensures var m, corners := Multiply(f, a, b),
        {Times(a.lo, b.lo), Times(a.lo, b.hi), Times(a.hi, b.lo), Times(a.hi, b.hi)};
      m.lo in corners && m.hi in corners && forall p | p in corners :: m.lo <= p <= m.hi
    ensures Add(f, a, b) == Interval(a.lo + b.lo, a.hi + b.hi)
  {
  }

  /** Without rounding a polynomial of a point is its value. */
  lemma {:induction false} PointIsExact(f: Rounding, coefficients: seq<real>, x: real)
    requires Exact(f)
    ensures Horner(f, coefficients, Interval(x, x)) == Interval(Eval(coefficients, x), Eval(coefficients, x))
  {
    if coefficients != [] {
      PointIsExact(f, coefficients[1..], x);
      EndsAreAttained(f, Horner(f, coefficients[1..], Interval(x, x)), Interval(x, x));
    }
  }

  lemma SquaresOnCircle(c: real, s: real)
    requires OnCircle(c, s)
    ensures Times(Abs(c), Abs(c)) == 1.0 - Times(s, s) && 0.0 <= Times(Abs(c), Abs(c)) && 0.0 <= Times(s, s)
  {
    assert Abs(c) * Abs(c) == c * c;
  }

  lemma PointLeast(c: real)
    ensures Least(Interval(c, c)) == Abs(c)
  {
  }

  lemma PointSin(f: Rounding, c: real, s: real)
    requires Exact(f) && OnCircle(c, s) && f.sqrt(Times(s, s)) == Abs(s)
    ensures SinUpper(f, Interval(c, c)) == Abs(s)
  {
    PointLeast(c);
    SquaresOnCircle(c, s);
    var square := Times(Abs(c), Abs(c));
    assert Max(0.0, f.down(f.times(Abs(c), Abs(c)))) == square;
    assert Max(0.0, f.up(f.plus(1.0, -square))) == Times(s, s);
  }

  /** And the magnitude of a point is |s * Q(c)| there, the square root being exact too. */
  lemma PointMagnitudeIsExact(f: Rounding, q: seq<real>, c: real, s: real)
    requires Exact(f) && OnCircle(c, s) && f.sqrt(Times(s, s)) == Abs(s)
    ensures RampMagnitude(f, q, Interval(c, c)) == Times(Abs(s), Abs(Eval(q, c)))
  {
    PointIsExact(f, q, c);
    PointSin(f, c, s);
    assert Magnitude(Interval(Eval(q, c), Eval(q, c))) == Abs(Eval(q, c));
  }

  const DEPTH: nat := 36

  /** The interval provably holds no zero of the polynomial. */
  predicate Excluded(f: Rounding, p: seq<real>, c: Interval) {
    var y := Horner(f, p, c);
    y.lo > 0.0 || y.hi < 0.0
  }

  /** A point of the circle whose cosine is a root of P inside the interval. */
  predicate Stationary(p: seq<real>, i: Interval, c: real, s: real) {
    In(c, i) && OnCircle(c, s) && Eval(p, c) == 0.0
  }

  /** `m` bounds |s * Q(c)| at every root of P in the interval. */
  ghost predicate BoundsRoots(p: seq<real>, q: seq<real>, i: Interval, m: real) {
    forall c, s :: Stationary(p, i, c, s) ==> RampSize(q, c, s) <= m
  }

  lemma ExclusionIsSafe(f: Rounding, p: seq<real>, q: seq<real>, i: Interval)
    requires Sound(f) && Excluded(f, p, i)
    ensures BoundsRoots(p, q, i, 0.0)
  {
    forall c, s | Stationary(p, i, c, s)
      ensures false
    {
      HornerEncloses(f, p, i, c);
    }
  }

  lemma WholeIntervalBounds(f: Rounding, p: seq<real>, q: seq<real>, i: Interval)
    requires Sound(f)
    ensures BoundsRoots(p, q, i, RampMagnitude(f, q, i))
  {
    forall c, s | Stationary(p, i, c, s)
      ensures RampSize(q, c, s) <= RampMagnitude(f, q, i)
    {
      RampMagnitudeBounds(f, q, i, c, s);
    }
  }

  /** Two halves cover the whole wherever the rounded middle fell. */
  lemma HalvesCover(p: seq<real>, q: seq<real>, i: Interval, mid: real, left: real, right: real)
    requires BoundsRoots(p, q, Interval(i.lo, mid), left) && BoundsRoots(p, q, Interval(mid, i.hi), right)
    ensures BoundsRoots(p, q, i, Max(left, right))
  {
    forall c, s | Stationary(p, i, c, s)
      ensures RampSize(q, c, s) <= Max(left, right)
    {
      assert Stationary(p, Interval(i.lo, mid), c, s) || Stationary(p, Interval(mid, i.hi), c, s);
    }
  }

  function Middle(f: Rounding, c: Interval): real {
    f.plus(c.lo, f.times(f.plus(c.hi, -c.lo), 0.5))
  }

  /** What the bisection does with an interval: drop it, take its magnitude whole, or split it. */
  datatype Bisection = Bisection(drop: Interval -> bool, size: Interval -> real, middle: Interval -> real)

  function BisectionOf(f: Rounding, p: seq<real>, q: seq<real>): Bisection {
    Bisection(c => Excluded(f, p, c), c => RampMagnitude(f, q, c), c => Middle(f, c))
  }

  /** The largest magnitude found, and what is left of the budget. */
  datatype Search = Search(largest: real, left: nat)

  function Bisected(b: Bisection, c: Interval, depth: nat, budget: nat): (r: Search)
    requires depth <= DEPTH
    ensures r.left <= budget
    decreases DEPTH - depth
  {
    if b.drop(c) then Search(0.0, budget)
    else if depth == DEPTH || budget == 0 then Search(b.size(c), budget)
    else
      var first := Bisected(b, Interval(c.lo, b.middle(c)), depth + 1, budget - 1);
      var second := Bisected(b, Interval(b.middle(c), c.hi), depth + 1, first.left);
      Search(Max(first.largest, second.largest), second.left)
  }

  function Half(b: Bisection, c: Interval, right: bool): Interval {
    if right then Interval(b.middle(c), c.hi) else Interval(c.lo, b.middle(c))
  }

  /** The interval reached by halving, left or right. */
  function Along(b: Bisection, c: Interval, path: seq<bool>): Interval
    decreases |path|
  {
    if path == [] then c else Along(b, Half(b, c, path[0]), path[1..])
  }

  /** No interval on the way there is dropped. */
  predicate Kept(b: Bisection, c: Interval, path: seq<bool>)
    decreases |path|
  {
    !b.drop(c) && (path != [] ==> Kept(b, Half(b, c, path[0]), path[1..]))
  }

  /** The search is no coarser than its depth and budget make it: what it answers, unless zero, is the
      size of one interval that survives every halving, at full depth if the budget lasts. */
  lemma {:induction false} BisectedIsAttained(b: Bisection, c: Interval, depth: nat, budget: nat)
    returns (path: seq<bool>)
    requires depth <= DEPTH
    ensures var r := Bisected(b, c, depth, budget);
      r.largest != 0.0 ==>
        && |path| <= DEPTH - depth && Kept(b, c, path) && r.largest == b.size(Along(b, c, path))
        && (r.left > 0 ==> |path| == DEPTH - depth)
    decreases DEPTH - depth
  {
    path := [];
    if !b.drop(c) && depth < DEPTH && budget > 0 {
      var first := Bisected(b, Half(b, c, false), depth + 1, budget - 1);
      var second := Bisected(b, Half(b, c, true), depth + 1, first.left);
      var left := BisectedIsAttained(b, Half(b, c, false), depth + 1, budget - 1);
      var right := BisectedIsAttained(b, Half(b, c, true), depth + 1, first.left);
      var low := second.largest >= first.largest;
      path := [low] + (if low then right else left);
      assert path[1..] == if low then right else left;
    }
  }

  /** And no finer: it is not below the size of any interval of full depth that survives, as long as the
      budget lasts. */
  lemma {:induction false} BisectedCovers(b: Bisection, c: Interval, depth: nat, budget: nat, path: seq<bool>)
    requires depth <= DEPTH && |path| == DEPTH - depth && Bisected(b, c, depth, budget).left > 0 && Kept(b, c, path)
    ensures b.size(Along(b, c, path)) <= Bisected(b, c, depth, budget).largest
    decreases DEPTH - depth
  {
    if depth < DEPTH {
      var first := Bisected(b, Half(b, c, false), depth + 1, budget - 1);
      BisectedCovers(b, Half(b, c, path[0]), depth + 1, if path[0] then first.left else budget - 1, path[1..]);
    }
  }

  /** Dropping an interval loses no root in it, and taking it whole bounds them all. */
  ghost predicate SafeAt(b: Bisection, p: seq<real>, q: seq<real>, c: Interval) {
    (b.drop(c) ==> BoundsRoots(p, q, c, 0.0)) && BoundsRoots(p, q, c, b.size(c))
  }

  lemma ExclusionIsSafeAt(f: Rounding, p: seq<real>, q: seq<real>, c: Interval)
    requires Sound(f)
    ensures SafeAt(BisectionOf(f, p, q), p, q, c)
  {
    WholeIntervalBounds(f, p, q, c);
    if Excluded(f, p, c) {
      ExclusionIsSafe(f, p, q, c);
    }
  }

  /** It never loses a root, whatever the cut-off, the budget and the rounding of the middle. */
  lemma {:induction false} BisectedBounds(b: Bisection, p: seq<real>, q: seq<real>, c: Interval, depth: nat,
                                          budget: nat)
    requires depth <= DEPTH && forall i :: SafeAt(b, p, q, i)
    ensures BoundsRoots(p, q, c, Bisected(b, c, depth, budget).largest)
    decreases DEPTH - depth
  {
    assert SafeAt(b, p, q, c);
    if !b.drop(c) && depth < DEPTH && budget > 0 {
      var mid := b.middle(c);
      var first := Bisected(b, Interval(c.lo, mid), depth + 1, budget - 1);
      var second := Bisected(b, Interval(mid, c.hi), depth + 1, first.left);
      BisectedBounds(b, p, q, Interval(c.lo, mid), depth + 1, budget - 1);
      BisectedBounds(b, p, q, Interval(mid, c.hi), depth + 1, first.left);
      HalvesCover(p, q, c, mid, first.largest, second.largest);
    }
  }

  lemma NoRootIsLost(f: Rounding, p: seq<real>, q: seq<real>, c: Interval, depth: nat, budget: nat)
    requires depth <= DEPTH && Sound(f)
    ensures BoundsRoots(p, q, c, Bisected(BisectionOf(f, p, q), c, depth, budget).largest)
  {
    var b := BisectionOf(f, p, q);
    forall i
      ensures SafeAt(b, p, q, i)
    {
      ExclusionIsSafeAt(f, p, q, i);
    }
    BisectedBounds(b, p, q, c, depth, budget);
  }

  lemma BothHalves(b: Bisection, c: Interval, depth: nat, budget: nat, first: Search, second: Search)
    requires depth < DEPTH && budget > 0 && !b.drop(c)
    requires first == Bisected(b, Interval(c.lo, b.middle(c)), depth + 1, budget - 1)
    requires second == Bisected(b, Interval(b.middle(c), c.hi), depth + 1, first.left)
    ensures Bisected(b, c, depth, budget) == Search(Max(first.largest, second.largest), second.left)
  {
  }

  /** The recursion, with the budget passed on from half to half. `left` is the budget after the call
      and `evaluations` how often an interval was looked at. */
  method Bisect(b: Bisection, c: Interval, depth: nat, budget: nat) returns (m: real, left: nat, evaluations: nat)
    requires depth <= DEPTH
    ensures Search(m, left) == Bisected(b, c, depth, budget)
    ensures left <= budget && evaluations == 2 * (budget - left) + 1
    decreases DEPTH - depth
  {
    if b.drop(c) {
      return 0.0, budget, 1;
    }
    if depth == DEPTH || budget == 0 {
      return b.size(c), budget, 1;
    }
    var mid := b.middle(c);
    var m1, left1, n1 := Bisect(b, Interval(c.lo, mid), depth + 1, budget - 1);
    var m2, left2, n2 := Bisect(b, Interval(mid, c.hi), depth + 1, left1);
    BothHalves(b, c, depth, budget, Search(m1, left1), Search(m2, left2));
    return Max(m1, m2), left2, n1 + n2 + 1;
  }

  /** Bounded bisection that drops only intervals without a root. */
  method StationaryMagnitude(f: Rounding, p: seq<real>, q: seq<real>, c: Interval, depth: nat, budget: nat)
    returns (m: real, left: nat, evaluations: nat)
    requires depth <= DEPTH
    ensures Search(m, left) == Bisected(BisectionOf(f, p, q), c, depth, budget)
    ensures Sound(f) ==> BoundsRoots(p, q, c, m)
    ensures left <= budget && evaluations == 2 * (budget - left) + 1
    ensures evaluations <= 2 * budget + 1
  {
    m, left, evaluations := Bisect(BisectionOf(f, p, q), c, depth, budget);
    if Sound(f) {
      NoRootIsLost(f, p, q, c, depth, budget);
    }
  }
}
