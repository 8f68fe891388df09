/**
 The MIT bit-field codec of src/mit_protocol.cpp over exact reals. A field that is shifted to a
 byte boundary and joined with `|` to a disjoint one is written as a sum.
 */
module MitProtocol {
  import opened Doubles
  import opened Wrappers

  type Byte = x: int | 0 <= x < 256

  // ----- one quantised value

  datatype Range = Range(min: Double, max: Double)

  predicate ValidRange(r: Range) {
    r.min.Fin? && r.max.Fin? && r.min.value < r.max.value
  }

  function Pow2(bits: nat): (n: nat)
    ensures n >= 1
  {
    if bits == 0 then 1 else 2 * Pow2(bits - 1)
  }

  /** The largest integer of the field. */
  function Top(bits: nat): (n: nat)
    ensures bits > 0 ==> n >= 1
  {
    Pow2(bits) - 1
  }

  predicate ValidField(r: Range, bits: nat) {
    ValidRange(r) && 0 < bits <= 31
  }

  /** The distance x of the range's span as steps of the field, and back. */
  function Steps(x: real, top: real, span: real): real
    requires span > 0.0
  {
    x * top / span
  }

  function Worth(n: real, top: real, span: real): real
    requires top > 0.0
  {
    n * span / top
  }

  function FloatToUint(value: Double, r: Range, bits: nat): (n: Option<nat>)
    ensures n.Some? <==> ValidField(r, bits) && Within(value, r.min.value, r.max.value)
  {
    if !ValidField(r, bits) || !Within(value, r.min.value, r.max.value) then None
    else
      FractionInRange(value.value - r.min.value, Top(bits) as real, r.max.value - r.min.value);
      Some(Steps(value.value - r.min.value, Top(bits) as real, r.max.value - r.min.value).Floor)
  }

  function UintToFloat(value: nat, r: Range, bits: nat): Double {
    if !ValidField(r, bits) then NaN
    else
      var saturated := if value <= Top(bits) then value else Top(bits);
      Fin(Worth(saturated as real, Top(bits) as real, r.max.value - r.min.value) + r.min.value)
  }

  /** What one step of the field is worth. */
  function Quantum(r: Range, bits: nat): real
    requires ValidField(r, bits)
  {
    Worth(1.0, Top(bits) as real, r.max.value - r.min.value)
  }

  lemma Quotient(a: real, b: real)
    requires b > 0.0
    ensures a / b * b == a
  {
  }

  lemma Monotone(a: real, b: real, k: real)
    requires a <= b && k > 0.0
    ensures a * k <= b * k && a / k <= b / k
  {
  }

  lemma FractionInRange(x: real, top: real, span: real)
    requires 0.0 <= x <= span && 0.0 < span && 0.0 < top
    ensures 0.0 <= Steps(x, top, span) <= top
  {
    Monotone(0.0, x, top);
    Monotone(x, span, top);
    QuotientInRange(x * top, top, span);
  }

  lemma QuotientInRange(y: real, top: real, span: real)
    requires 0.0 < span && 0.0 <= y <= span * top
    ensures 0.0 <= y / span <= top
  {
    var q := y / span;
    Quotient(y, span);
    if q > top {
      StrictMonotone(top, q, span);
    } else if q < 0.0 {
      StrictMonotone(q, 0.0, span);
    }
  }

  lemma Cancel(a: real, b: real)
    requires b > 0.0
    ensures b * a / b == a && a * b / b == a
  {
  }

  /** A whole number of steps n below x, and less than one more. */
  lemma StepsBelow(x: real, n: int, top: real, span: real)
    requires 0.0 < span && 0.0 < top && n as real <= Steps(x, top, span) < (n + 1) as real
    ensures Worth(n as real, top, span) <= x < Worth(n as real, top, span) + Worth(1.0, top, span)
  {
    var q, m := x * top / span, n as real;
    Quotient(x * top, span);
    Monotone(m, q, span);
    Monotone(m * span, x * top, top);
    Cancel(x, top);
    StrictMonotone(q, m + 1.0, span);
    StrictMonotone(x * top, (m + 1.0) * span, top);
    Distribute(m, span, top);
  }

  lemma StrictMonotone(a: real, b: real, k: real)
    requires a < b && k > 0.0
    ensures a * k < b * k && a / k < b / k
  {
  }

  lemma Distribute(m: real, span: real, top: real)
    requires top > 0.0
    ensures (m + 1.0) * span / top == m * span / top + span / top
  {
    assert (m + 1.0) * span == m * span + span;
  }

  /** `d` was rounded down to `n` steps of the field. */
  predicate RoundedTo(d: Double, n: nat, r: Range, bits: nat) {
    && d.Fin? && ValidField(r, bits) && UintToFloat(n, r, bits).Fin?
    && UintToFloat(n, r, bits).value <= d.value < UintToFloat(n, r, bits).value + Quantum(r, bits)
  }

  /** Exactly the valid numbers in range are quantised: rounded down by less than one step, to an
      integer that fits the field. */
  lemma QuantisedBelow(value: Double, r: Range, bits: nat)
    ensures FloatToUint(value, r, bits).Some? <==> ValidField(r, bits) && Within(value, r.min.value, r.max.value)
    ensures FloatToUint(value, r, bits).Some? ==>
      FloatToUint(value, r, bits).value <= Top(bits) && RoundedTo(value, FloatToUint(value, r, bits).value, r, bits)
  {
    if ValidField(r, bits) && Within(value, r.min.value, r.max.value) {
      InRangeQuantised(value, r, bits);
    }
  }

  lemma InRangeQuantised(value: Double, r: Range, bits: nat)
    requires ValidField(r, bits) && Within(value, r.min.value, r.max.value)
    ensures var n := FloatToUint(value, r, bits).value; n <= Top(bits) && RoundedTo(value, n, r, bits)
  {
    var x, top, span := value.value - r.min.value, Top(bits) as real, r.max.value - r.min.value;
    FractionInRange(x, top, span);
    var n := FloatToUint(value, r, bits).value;
    assert n == Steps(x, top, span).Floor;
    StepsBelow(x, n, top, span);
  }

  lemma BackToSteps(n: real, top: real, span: real)
    requires 0.0 < span && 0.0 < top
    ensures Steps(Worth(n, top, span), top, span) == n
  {
    Quotient(n * span, top);
    Cancel(n, span);
  }

  lemma StepsInRange(n: real, top: real, span: real)
    requires 0.0 < span && 0.0 < top && 0.0 <= n <= top
    ensures 0.0 <= Worth(n, top, span) <= span
  {
    FractionInRange(n, span, top);
  }

  /** Decoding and encoding again gives the integer back, saturated at the top. */
  lemma UintRoundTrip(n: nat, r: Range, bits: nat)
    requires ValidField(r, bits)
    ensures FloatToUint(UintToFloat(n, r, bits), r, bits) == Some(if n <= Top(bits) then n else Top(bits))
  {
    var m, top, span := if n <= Top(bits) then n else Top(bits), Top(bits) as real, r.max.value - r.min.value;
    StepsInRange(m as real, top, span);
    var value := UintToFloat(n, r, bits);
    assert value.value - r.min.value == Worth(m as real, top, span);
    BackToSteps(m as real, top, span);
    assert (m as real).Floor == m;
  }

  // ----- zero

  /** Zero is a whole number of steps above the bottom of the range. */
  predicate ZeroIsStep(r: Range, bits: nat)
    requires ValidField(r, bits)
  {
    var steps := Steps(0.0 - r.min.value, Top(bits) as real, r.max.value - r.min.value);
    steps.Floor as real == steps
  }

  /** `n` reads as zero if zero is a step, and otherwise as less than one step below it. */
  predicate ReadsZero(n: nat, r: Range, bits: nat)
    requires ValidField(r, bits)
  {
    var back := UintToFloat(n, r, bits);
    back.Fin? && -Quantum(r, bits) < back.value <= 0.0 && (back.value == 0.0 <==> ZeroIsStep(r, bits))
  }

  lemma WorthOfSteps(x: real, top: real, span: real)
    requires 0.0 < span && 0.0 < top
    ensures Worth(Steps(x, top, span), top, span) == x
  {
    Quotient(x * top, span);
    Cancel(x, top);
  }

  lemma ZeroQuantised(r: Range, bits: nat)
    requires ValidField(r, bits) && r.min.value <= 0.0 <= r.max.value
    ensures FloatToUint(Fin(0.0), r, bits).Some? && ReadsZero(FloatToUint(Fin(0.0), r, bits).value, r, bits)
  {
    QuantisedBelow(Fin(0.0), r, bits);
    var n := FloatToUint(Fin(0.0), r, bits).value;
    var x, top, span := 0.0 - r.min.value, Top(bits) as real, r.max.value - r.min.value;
    assert n == Steps(x, top, span).Floor;
    WorthOfSteps(x, top, span);
    BackToSteps(n as real, top, span);
    assert UintToFloat(n, r, bits).value == Worth(n as real, top, span) + r.min.value;
  }

  /** A range that starts at zero reads it exactly. */
  lemma BottomIsZero(r: Range, bits: nat)
    requires ValidField(r, bits) && r.min == Fin(0.0)
    ensures ZeroIsStep(r, bits)
  {
    assert 0.0 * Top(bits) as real == 0.0;
  }

  lemma Reassociate(m: real, q: real, top: real)
    ensures m * (q * top) == m * q * top
  {
  }

  lemma WorthIsLinear(m: real, top: real, span: real)
    requires top > 0.0
    ensures Worth(m, top, span) == m * Worth(1.0, top, span)
  {
    var q := Worth(1.0, top, span);
    Quotient(1.0 * span, top);
    Reassociate(m, q, top);
    Cancel(m * q, top);
  }

  lemma HalfBelow(m: real, q: real, max: real)
    requires q * (2.0 * m + 1.0) == 2.0 * max
    ensures m * q - max == -0.5 * q
  {
    assert q * (2.0 * m + 1.0) == 2.0 * (m * q) + q;
  }

  lemma WorthBelowHalf(m: real, top: real, max: real)
    requires 0.0 <= m && top == 2.0 * m + 1.0
    ensures Worth(m, top, 2.0 * max) - max == -0.5 * Worth(1.0, top, 2.0 * max)
  {
    WorthIsLinear(m, top, 2.0 * max);
    Quotient(1.0 * (2.0 * max), top);
    HalfBelow(m, Worth(1.0, top, 2.0 * max), max);
  }

  lemma HalfOf(y: real, q: real, max: real)
    requires q * (2.0 * y) == 2.0 * max
    ensures y * q == max
  {
    assert q * (2.0 * y) == 2.0 * (y * q);
  }

  lemma HalfTheSteps(y: real, top: real, max: real)
    requires max > 0.0 && y > 0.0 && top == 2.0 * y
    ensures Steps(max, top, 2.0 * max) == y
  {
    WorthIsLinear(y, top, 2.0 * max);
    Quotient(1.0 * (2.0 * max), top);
    HalfOf(y, Worth(1.0, top, 2.0 * max), max);
    BackToSteps(y, top, 2.0 * max);
  }

  /** In a symmetric range zero is never a step: it reads as half a step below. */
  lemma SymmetricZero(r: Range, bits: nat)
    requires ValidField(r, bits) && r.min.value == -r.max.value
    ensures FloatToUint(Fin(0.0), r, bits).Some? && !ZeroIsStep(r, bits)
    ensures UintToFloat(FloatToUint(Fin(0.0), r, bits).value, r, bits) == Fin(-0.5 * Quantum(r, bits))
  {
    ZeroQuantised(r, bits);
    var m := Pow2(bits - 1) - 1;
    assert Top(bits) == 2 * m + 1;
    HalfTheSteps(m as real + 0.5, Top(bits) as real, r.max.value);
    WorthBelowHalf(m as real, Top(bits) as real, r.max.value);
    assert FloatToUint(Fin(0.0), r, bits).value == m;
  }

  // ----- a command

  datatype Limits = Limits(p: Range, v: Range, kp: Range, kd: Range, torque: Range)

  predicate ValidLimits(l: Limits) {
    ValidRange(l.p) && ValidRange(l.v) && ValidRange(l.kp) && ValidRange(l.kd) && ValidRange(l.torque)
  }

  datatype Command = Command(position: Double, velocity: Double, kp: Double, kd: Double, torque: Double)

  predicate InRange(d: Double, r: Range) {
    ValidRange(r) && Within(d, r.min.value, r.max.value)
  }

  predicate Encodable(c: Command, l: Limits) {
    && ValidLimits(l) && InRange(c.position, l.p) && InRange(c.velocity, l.v) && InRange(c.kp, l.kp) &&
      InRange(c.kd, l.kd)
    && InRange(c.torque, l.torque)
  }

  datatype Fields = Fields(p: nat, v: nat, kp: nat, kd: nat, torque: nat)

  predicate Fits(f: Fields) {
    f.p < 0x10000 && f.v < 0x1000 && f.kp < 0x1000 && f.kd < 0x1000 && f.torque < 0x1000
  }

  lemma Tops()
    ensures Top(16) == 0xffff && Top(12) == 0xfff
  {
    assert Pow2(4) == 16;
    assert Pow2(8) == 256;
    assert Pow2(12) == 4096;
    assert Pow2(16) == 65536;
  }

  function Quantised(c: Command, l: Limits): (f: Fields)
    requires Encodable(c, l)
    ensures Fits(f)
  {
    QuantisedBelow(c.position, l.p, 16);
    QuantisedBelow(c.velocity, l.v, 12);
    QuantisedBelow(c.kp, l.kp, 12);
    QuantisedBelow(c.kd, l.kd, 12);
    QuantisedBelow(c.torque, l.torque, 12);
    Tops();
    Fields(FloatToUint(c.position, l.p, 16).value, FloatToUint(c.velocity, l.v, 12).value,
           FloatToUint(c.kp, l.kp, 12).value,
           FloatToUint(c.kd, l.kd, 12).value, FloatToUint(c.torque, l.torque, 12).value)
  }

  /** The eight bytes: position 16 bits, then velocity, kp, kd and torque 12 bits each. */
  function Pack(f: Fields): (b: seq<Byte>)
    requires Fits(f)
    ensures |b| == 8
  {
    [f.p / 256, f.p % 256, f.v / 16, f.v % 16 * 16 + f.kp / 256, f.kp % 256, f.kd / 16, f.kd % 16 * 16 + f.torque / 256,
     f.torque % 256]
  }

  function Join(high: nat, shift: nat, low: nat): nat {
    high * shift + low
  }

  /** What a motor reads out of the eight bytes. */
  function Unpack(b: seq<Byte>): (f: Fields)
    requires |b| == 8
    ensures Fits(f)
  {
    Fields(Join(b[0], 256, b[1]), Join(b[2], 16, b[3] / 16), Join(b[3] % 16, 256, b[4]), Join(b[5], 16, b[6] / 16),
           Join(b[6] % 16, 256, b[7]))
  }

  /** No field touches another's bits, and no bit is left over. */
  lemma PackRoundTrip(f: Fields)
    requires Fits(f)
    ensures Unpack(Pack(f)) == f
  {
    var b := Pack(f);
    assert b[3] / 16 == f.v % 16 && b[3] % 16 == f.kp / 256;
    assert b[6] / 16 == f.kd % 16 && b[6] % 16 == f.torque / 256;
  }

  lemma UnpackRoundTrip(b: seq<Byte>)
    requires |b| == 8
    ensures Pack(Unpack(b)) == b
  {
    var f, c := Unpack(b), Pack(Unpack(b));
    assert f.v / 16 == b[2] && f.v % 16 == b[3] / 16 && f.kp / 256 == b[3] % 16 && f.kp % 256 == b[4];
    assert f.kd / 16 == b[5] && f.kd % 16 == b[6] / 16 && f.torque / 256 == b[6] % 16 && f.torque % 256 == b[7];
    assert forall i | 0 <= i < 8 :: c[i] == b[i];
  }

  function EncodeCommand(c: Command, l: Limits): (b: Option<seq<Byte>>)
    ensures b.Some? <==> Encodable(c, l)
    ensures b.Some? ==> |b.value| == 8
  {
    if Encodable(c, l) then Some(Pack(Quantised(c, l))) else None
  }

  /** There are bytes exactly for valid limits and values in range, and then the motor gets all five
      values, each rounded down by less than one step. */
  lemma EncodedFieldsArrive(c: Command, l: Limits)
    ensures EncodeCommand(c, l).Some? <==> Encodable(c, l)
    ensures EncodeCommand(c, l).Some? ==> FieldsArrive(c, l, EncodeCommand(c, l).value)
  {
    if Encodable(c, l) {
      PackRoundTrip(Quantised(c, l));
      QuantisedBelow(c.position, l.p, 16);
      QuantisedBelow(c.velocity, l.v, 12);
      QuantisedBelow(c.kp, l.kp, 12);
      QuantisedBelow(c.kd, l.kd, 12);
      QuantisedBelow(c.torque, l.torque, 12);
    }
  }

  predicate FieldsArrive(c: Command, l: Limits, bytes: seq<Byte>) {
    && |bytes| == 8
    && var f := Unpack(bytes);
      && RoundedTo(c.position, f.p, l.p, 16) && RoundedTo(c.velocity, f.v, l.v, 12) && RoundedTo(c.kp, f.kp, l.kp, 12)
      && RoundedTo(c.kd, f.kd, l.kd, 12) && RoundedTo(c.torque, f.torque, l.torque, 12)
  }

  // ----- a reply

  datatype Feedback = Feedback(motor: Byte, position: Double, velocity: Double, torque: Double, mos: real,
                               winding: real)

  function DecodeTemperature(raw: Byte): (t: real)
    ensures -30.0 <= t <= 150.0
  {
    raw as real * 180.0 / 255.0 - 30.0
  }

  /** The scale runs from -30 to 150 degrees in 255 equal steps. */
  lemma TemperatureScale(a: Byte, b: Byte)
    ensures DecodeTemperature(0) == -30.0 && DecodeTemperature(255) == 150.0
    ensures (DecodeTemperature(b) - DecodeTemperature(a)) * 255.0 == (b as real - a as real) * 180.0
  {
  }

  function DecodeFeedback(b: seq<Byte>, l: Limits, expected: Option<Byte>): (f: Option<Feedback>)
    requires |b| == 8
    ensures f.Some? <==> ValidLimits(l) && (expected.Some? ==> b[0] == expected.value)
  {
    if !ValidLimits(l) || (expected.Some? && b[0] != expected.value) then None
    else
      Some(Feedback(b[0], UintToFloat(Join(b[1], 256, b[2]), l.p, 16), UintToFloat(Join(b[3], 16, b[4] / 16), l.v, 12),
                    UintToFloat(Join(b[4] % 16, 256, b[5]), l.torque, 12), DecodeTemperature(b[6]),
                      DecodeTemperature(b[7])))
  }

  /** The reply of a motor that reports these three integers. */
  function Reply(motor: Byte, p: nat, v: nat, torque: nat, mos: Byte, winding: Byte): (b: seq<Byte>)
    requires p < 0x10000 && v < 0x1000 && torque < 0x1000
    ensures |b| == 8
  {
    [motor, p / 256, p % 256, v / 16, v % 16 * 16 + torque / 256, torque % 256, mos, winding]
  }

  /** A reply is refused exactly for invalid limits or another motor's id; otherwise it decodes to
      the values of its integers. */
  lemma ReplyIsUnderstood(motor: Byte, p: nat, v: nat, torque: nat, mos: Byte, winding: Byte, l: Limits,
                          expected: Option<Byte>)
    requires p < 0x10000 && v < 0x1000 && torque < 0x1000
    ensures DecodeFeedback(Reply(motor, p, v, torque, mos, winding), l, expected) ==
      if ValidLimits(l) && expected in {None, Some(motor)}
      then Some(Feedback(motor, UintToFloat(p, l.p, 16), UintToFloat(v, l.v, 12), UintToFloat(torque, l.torque, 12),
                         DecodeTemperature(mos), DecodeTemperature(winding)))
      else None
  {
    var b := Reply(motor, p, v, torque, mos, winding);
    assert b[4] / 16 == v % 16 && b[4] % 16 == torque / 256;
  }
}
