/**
 Joint coordinates against motor coordinates (src/bxi_actuator.cpp), and the broadcast frame that
 carries one control block per motor (src/bus_streamer.cpp).
 */
module Actuators {
  import opened Doubles
  import opened Wrappers
  import opened MitProtocol

  datatype Actuator = Actuator(enabled: bool, direction: int, offset: real, lower: real, upper: real, limits: Limits,
                               sensorFaultBelow: real)

  /** The ranges of config/specs/MOTOR_70.yaml. */
  const MOTOR_70 := Limits(Range(Fin(-12.5), Fin(12.5)), Range(Fin(-45.0), Fin(45.0)),
                           Range(Fin(0.0), Fin(500.0)), Range(Fin(0.0), Fin(5.0)), Range(Fin(-80.0), Fin(80.0)))

  /** What the constructor demands; kp and kd start at zero. */
  predicate ValidActuator(a: Actuator) {
    && (a.direction == -1 || a.direction == 1) && a.lower < a.upper && ValidLimits(a.limits)
    && a.limits.kp.min == Fin(0.0) && a.limits.kd.min == Fin(0.0)
  }

  function Clamp(x: real, lower: real, upper: real): (y: real)
    requires lower <= upper
    ensures lower <= y <= upper && (y < x ==> y == upper) && (x < y ==> y == lower)
  {
    if x < lower then lower else if upper < x then upper else x
  }

  function ClampTo(x: real, r: Range): (d: Double)
    requires ValidRange(r)
    ensures InRange(d, r)
  {
    Fin(Clamp(x, r.min.value, r.max.value))
  }

  /** The command in motor coordinates, saturated at joint and motor limits. */
  function MotorCommand(a: Actuator, p: real, v: real, kp: real, kd: real, effort: real): (c: Command)
    requires ValidActuator(a)
    ensures Encodable(c, a.limits)
  {
    Command(ClampTo(Turned(Clamp(p, a.lower, a.upper), a.direction) + a.offset, a.limits.p),
            ClampTo(Turned(v, a.direction), a.limits.v), ClampTo(kp, a.limits.kp), ClampTo(kd, a.limits.kd),
            ClampTo(Turned(effort, a.direction), a.limits.torque))
  }

  function EncodeControlBlock(a: Actuator, p: Double, v: Double, kp: Double, kd: Double,
                              effort: Double): (b: Option<seq<Byte>>)
    requires ValidActuator(a)
    ensures b.Some? <==> a.enabled && p.Fin? && v.Fin? && kp.Fin? && kd.Fin? && effort.Fin?
    ensures b.Some? ==> |b.value| == 8
  {
    if !a.enabled || !p.Fin? || !v.Fin? || !kp.Fin? || !kd.Fin? || !effort.Fin? then None
    else EncodeCommand(MotorCommand(a, p.value, v.value, kp.value, kd.value, effort.value), a.limits)
  }

  datatype JointFeedback = JointFeedback(position: real, velocity: real, effort: real, temperature: Double,
                                         winding: Double)

  /** A motor coordinate seen from the joint. */
  function Turned(x: real, direction: int): real {
    x * direction as real
  }

  function Healthy(t: real, faultBelow: real): Double {
    if t < faultBelow then NaN else Fin(t)
  }

  function ConvertFeedback(a: Actuator, f: Feedback): JointFeedback
    requires f.position.Fin? && f.velocity.Fin? && f.torque.Fin?
  {
    var mos, winding := Healthy(f.mos, a.sensorFaultBelow), Healthy(f.winding, a.sensorFaultBelow);
    var hottest := if mos.NaN? then winding
                   else if winding.NaN? || mos.value >= winding.value then mos
                   else winding;
    JointFeedback(Turned(f.position.value - a.offset, a.direction), Turned(f.velocity.value, a.direction),
                  Turned(f.torque.value, a.direction), hottest, winding)
  }

  /** Turning the joint's values back gives the motor's. No temperature exactly when both sensors
      read below the fault threshold; otherwise the hottest healthy one. */
  lemma FeedbackTurnsBack(a: Actuator, f: Feedback)
    requires ValidActuator(a) && f.position.Fin? && f.velocity.Fin? && f.torque.Fin?
    ensures var r := ConvertFeedback(a, f);
      && Turned(r.position, a.direction) + a.offset == f.position.value
      && Turned(r.velocity, a.direction) == f.velocity.value && Turned(r.effort, a.direction) == f.torque.value
    ensures var t, least := ConvertFeedback(a, f).temperature, a.sensorFaultBelow;
      && (t.NaN? <==> f.mos < least && f.winding < least) && !t.Inf?
      && (t.Fin? ==> t.value in {f.mos, f.winding} && t.value >= least)
      && (t.Fin? && f.mos >= least ==> f.mos <= t.value) && (t.Fin? && f.winding >= least ==> f.winding <= t.value)
    ensures var winding := ConvertFeedback(a, f).winding;
      winding == (if f.winding >= a.sensorFaultBelow then Fin(f.winding) else NaN)
  {
    TurnedBack(f.position.value - a.offset, a.direction);
    TurnedBack(f.velocity.value, a.direction);
    TurnedBack(f.torque.value, a.direction);
  }

  lemma TurnedBack(x: real, direction: int)
    requires direction == 1 || direction == -1
    ensures Turned(Turned(x, direction), direction) == x
  {
    TurnedBySign(x, direction);
    TurnedBySign(Turned(x, direction), direction);
  }

  // ----- there and back

  /** What the motor is told, seen from the joint, is what was asked (for the position: inside the
      joint's limits) exactly where that is inside the motor's own range. */
  lemma ToldIsClamped(a: Actuator, p: real, v: real, kp: real, kd: real, effort: real)
    requires ValidActuator(a)
    ensures var target := Clamp(p, a.lower, a.upper);
      var told := Turned(MotorCommand(a, p, v, kp, kd, effort).position.value - a.offset, a.direction);
      told == target <==> a.limits.p.min.value <= Turned(target, a.direction) + a.offset <= a.limits.p.max.value
    ensures var c := MotorCommand(a, p, v, kp, kd, effort);
      && (Turned(c.velocity.value, a.direction) == v <==> InRange(Fin(Turned(v, a.direction)), a.limits.v))
      && (Turned(c.torque.value, a.direction) == effort <==> InRange(Fin(Turned(effort, a.direction)), a.limits.torque))
      && (c.kp == Fin(kp) <==> InRange(Fin(kp), a.limits.kp)) && (c.kd == Fin(kd) <==> InRange(Fin(kd), a.limits.kd))
  {
    TurnedBySign(Clamp(p, a.lower, a.upper), a.direction);
    TurnedBySign(v, a.direction);
    TurnedBySign(effort, a.direction);
  }

  function Least(x: real, y: real): real {
    if y < x then y else x
  }

  function Greatest(x: real, y: real): real {
    if x < y then y else x
  }

  /** Whatever is asked, the told position is inside the joint's limits if and only if those overlap
      the motor's own range, seen from the joint. */
  lemma ToldStaysInLimits(a: Actuator, p: real, v: real, kp: real, kd: real, effort: real)
    requires ValidActuator(a)
    ensures var x, y := Turned(a.limits.p.min.value - a.offset, a.direction),
                        Turned(a.limits.p.max.value - a.offset, a.direction);
      var told := Turned(MotorCommand(a, p, v, kp, kd, effort).position.value - a.offset, a.direction);
      a.lower <= told <= a.upper <==> Least(x, y) <= a.upper && a.lower <= Greatest(x, y)
  {
    TurnedBySign(a.limits.p.min.value - a.offset, a.direction);
    TurnedBySign(a.limits.p.max.value - a.offset, a.direction);
    TurnedBySign(Clamp(p, a.lower, a.upper), a.direction);
    TurnedBySign(MotorCommand(a, p, v, kp, kd, effort).position.value - a.offset, a.direction);
  }

  /** So a large offset sends a joint beyond its own limits: here it may turn by 1 either way, is
      asked to stand at 0, and is told -7.5. */
  lemma ToldCanLeaveLimits()
    ensures var a := Actuator(true, 1, 20.0, -1.0, 1.0, MOTOR_70, -20.0);
      && ValidActuator(a)
      && Turned(MotorCommand(a, 0.0, 0.0, 0.0, 0.0, 0.0).position.value - a.offset, a.direction) == -7.5 < a.lower
  {
  }

  lemma TurnedBySign(x: real, direction: int)
    requires direction == 1 || direction == -1
    ensures Turned(x, direction) == if direction == 1 then x else -x
  {
    assert x * 1.0 == x && x * -1.0 == -x;
  }

  /** `got` is `told` rounded, toward the lower motor coordinate, by less than a quantum. */
  predicate Near(got: real, told: real, direction: int, quantum: real) {
    if direction == 1 then told - quantum < got <= told else told <= got < told + quantum
  }

  lemma BackNear(x: real, quantised: real, offset: real, direction: int, quantum: real)
    requires direction == 1 || direction == -1
    requires quantised <= x < quantised + quantum
    ensures Near(Turned(quantised - offset, direction), Turned(x - offset, direction), direction, quantum)
  {
    if direction == 1 {
      assert Turned(quantised - offset, 1) == quantised - offset && Turned(x - offset, 1) == x - offset;
    } else {
      assert Turned(quantised - offset, -1) == offset - quantised && Turned(x - offset, -1) == offset - x;
    }
  }

  /** The feedback a joint reports if its motor stands exactly where its last command said. */
  function Echo(a: Actuator, block: seq<Byte>, id: Byte, mos: Byte, winding: Byte): JointFeedback
    requires |block| == 8 && ValidActuator(a)
  {
    var f := Unpack(block);
    var d := DecodeFeedback(Reply(id, f.p, f.v, f.torque, mos, winding), a.limits, Some(id));
    ConvertFeedback(a, d.value)
  }

  lemma EchoIs(a: Actuator, block: seq<Byte>, id: Byte, mos: Byte, winding: Byte)
    requires |block| == 8 && ValidActuator(a)
    ensures var r, f := Echo(a, block, id, mos, winding), Unpack(block);
      && r.position == Turned(UintToFloat(f.p, a.limits.p, 16).value - a.offset, a.direction)
      && r.velocity == Turned(UintToFloat(f.v, a.limits.v, 12).value - 0.0, a.direction)
      && r.effort == Turned(UintToFloat(f.torque, a.limits.torque, 12).value - 0.0, a.direction)
  {
    var f := Unpack(block);
    ReplyIsUnderstood(id, f.p, f.v, f.torque, mos, winding, a.limits, Some(id));
  }

  /** The joint reports each commanded value rounded by less than its quantum. */
  predicate ComesBack(a: Actuator, r: JointFeedback, c: Command)
    requires ValidActuator(a) && c.position.Fin? && c.velocity.Fin? && c.torque.Fin?
  {
    && Near(r.position, Turned(c.position.value - a.offset, a.direction), a.direction, Quantum(a.limits.p, 16))
    && Near(r.velocity, Turned(c.velocity.value, a.direction), a.direction, Quantum(a.limits.v, 12))
    && Near(r.effort, Turned(c.torque.value, a.direction), a.direction, Quantum(a.limits.torque, 12))
  }

  /** For either direction and any offset, what was commanded comes back within one quantum of the
      saturated value, in position, velocity and effort. */
  lemma CommandComesBack(a: Actuator, p: Double, v: Double, kp: Double, kd: Double, effort: Double, id: Byte,
                         mos: Byte, winding: Byte)
    requires ValidActuator(a) && a.enabled && p.Fin? && v.Fin? && kp.Fin? && kd.Fin? && effort.Fin?
    ensures ComesBack(a, Echo(a, EncodeControlBlock(a, p, v, kp, kd, effort).value, id, mos, winding),
                      MotorCommand(a, p.value, v.value, kp.value, kd.value, effort.value))
  {
    var c := MotorCommand(a, p.value, v.value, kp.value, kd.value, effort.value);
    EncodedFieldsArrive(c, a.limits);
    EchoNear(a, EncodeCommand(c, a.limits).value, id, mos, winding, c);
  }

  lemma RoundedNear(x: Double, n: nat, r: Range, bits: nat, offset: real, direction: int)
    requires direction == 1 || direction == -1
    requires RoundedTo(x, n, r, bits)
    ensures Near(Turned(UintToFloat(n, r, bits).value - offset, direction), Turned(x.value - offset, direction),
                 direction, Quantum(r, bits))
  {
    BackNear(x.value, UintToFloat(n, r, bits).value, offset, direction, Quantum(r, bits));
  }

  /** A block whose fields are these values rounded echoes them within a quantum. */
  lemma EchoNear(a: Actuator, block: seq<Byte>, id: Byte, mos: Byte, winding: Byte, c: Command)
    requires |block| == 8 && ValidActuator(a)
    requires RoundedTo(c.position, Unpack(block).p, a.limits.p, 16)
    requires RoundedTo(c.velocity, Unpack(block).v, a.limits.v, 12)
    requires RoundedTo(c.torque, Unpack(block).torque, a.limits.torque, 12)
    ensures ComesBack(a, Echo(a, block, id, mos, winding), c)
  {
    var f := Unpack(block);
    EchoIs(a, block, id, mos, winding);
    RoundedNear(c.position, f.p, a.limits.p, 16, a.offset, a.direction);
    RoundedNear(c.velocity, f.v, a.limits.v, 12, 0.0, a.direction);
    RoundedNear(c.torque, f.torque, a.limits.torque, 12, 0.0, a.direction);
  }

  // ----- the broadcast frame

  const BLOCK: nat := 8
  const FRAME: nat := 64

  predicate ValidLength(length: nat) {
    length <= 8 || length in {12, 16, 20, 24, 32, 48, 64}
  }

  datatype Block = Block(motor: int, bytes: seq<Byte>)

  datatype Frame = Frame(id: nat, extended: bool, length: nat, data: seq<Byte>)

  /** Motor `m` gets the last block addressed to it, or the padding. */
  function BlockFor(blocks: seq<Block>, padding: seq<Byte>, m: int): seq<Byte> {
    if blocks == [] then padding
    else if blocks[|blocks| - 1].motor == m then blocks[|blocks| - 1].bytes
    else BlockFor(blocks[..|blocks| - 1], padding, m)
  }

  /** The buffer with motor m's slot overwritten. */
  function Paste(data: seq<Byte>, m: nat, bytes: seq<Byte>): (r: seq<Byte>)
    requires m >= 1 && BLOCK * m <= |data| && |bytes| == BLOCK
    ensures |r| == |data|
  {
    data[..BLOCK * (m - 1)] + bytes + data[BLOCK * m..]
  }

  method Copy(data: array<Byte>, m: nat, bytes: seq<Byte>)
    requires |bytes| == BLOCK && m >= 1 && BLOCK * m <= data.Length
    modifies data
    ensures data[..] == Paste(old(data[..]), m, bytes)
  {
    var at := BLOCK * (m - 1);
    for i := 0 to BLOCK
      invariant data[at..at + i] == bytes[..i]
      invariant data[..at] == old(data[..at]) && data[at + BLOCK..] == old(data[at + BLOCK..])
    {
      data[at + i] := bytes[i];
    }
    assert data[..] == data[..at] + data[at..at + BLOCK] + data[at + BLOCK..];
  }

  predicate Holds(data: seq<Byte>, m: nat, bytes: seq<Byte>) {
    m >= 1 && BLOCK * m <= |data| && data[BLOCK * (m - 1)..BLOCK * m] == bytes
  }

  lemma PasteHolds(data: seq<Byte>, m: nat, bytes: seq<Byte>, other: nat, was: seq<Byte>)
    requires |bytes| == BLOCK && m >= 1 && BLOCK * m <= |data| && Holds(data, other, was)
    ensures Holds(Paste(data, m, bytes), other, if other == m then bytes else was)
  {
    var after := Paste(data, m, bytes);
    if other != m {
      assert forall i | BLOCK * (other - 1) <= i < BLOCK * other :: after[i] == data[i];
    }
  }

  /** Every motor up to `count` finds its block in its slot, and the rest of the buffer is zero. */
  ghost predicate Laid(data: seq<Byte>, blocks: seq<Block>, padding: seq<Byte>, count: nat) {
    && (forall m | 1 <= m <= count :: Holds(data, m, BlockFor(blocks, padding, m)))
    && (forall i | BLOCK * count <= i < |data| :: data[i] == 0)
  }

  lemma LayOne(data: seq<Byte>, blocks: seq<Block>, padding: seq<Byte>, count: nat, block: Block)
    requires Laid(data, blocks, padding, count) && BLOCK * count <= |data|
    requires 1 <= block.motor <= count && |block.bytes| == BLOCK
    ensures Laid(Paste(data, block.motor, block.bytes), blocks + [block], padding, count)
  {
    assert (blocks + [block])[..|blocks|] == blocks;
    forall m | 1 <= m <= count
      ensures Holds(Paste(data, block.motor, block.bytes), m, BlockFor(blocks + [block], padding, m))
    {
      PasteHolds(data, block.motor, block.bytes, m, BlockFor(blocks, padding, m));
    }
  }

  lemma PadOne(data: seq<Byte>, padding: seq<Byte>, count: nat)
    requires Laid(data, [], padding, count) && BLOCK * (count + 1) <= |data| && |padding| == BLOCK
    ensures Laid(Paste(data, count + 1, padding), [], padding, count + 1)
  {
    var after := Paste(data, count + 1, padding);
    forall m | 1 <= m <= count + 1
      ensures Holds(after, m, padding)
    {
      if m <= count {
        assert BlockFor([], padding, m) == padding;
        PasteHolds(data, count + 1, padding, m, padding);
      }
    }
  }

  method Pad(data: array<Byte>, padding: seq<Byte>, count: nat)
    requires |padding| == BLOCK && BLOCK * count <= data.Length && forall i | 0 <= i < data.Length :: data[i] == 0
    modifies data
    ensures Laid(data[..], [], padding, count)
  {
    for b := 0 to count
      invariant Laid(data[..], [], padding, b)
    {
      PadOne(data[..], padding, b);
      Copy(data, b + 1, padding);
    }
  }

  predicate Broadcastable(blocks: seq<Block>, count: nat) {
    && count > 0 && count * BLOCK <= FRAME && ValidLength(count * BLOCK)
    && forall i | 0 <= i < |blocks| :: 1 <= blocks[i].motor <= count
  }

  /** None exactly for a length CAN FD does not have or a motor without a slot; otherwise every
      motor finds its own block in its own slot. */
  method BuildBroadcastFrame(blocks: seq<Block>, count: nat, padding: seq<Byte>) returns (frame: Option<Frame>)
    requires |padding| == BLOCK && forall i | 0 <= i < |blocks| :: |blocks[i].bytes| == BLOCK
    ensures frame.Some? <==> Broadcastable(blocks, count)
    ensures frame.Some? ==> frame.value.id == 0x7ff && !frame.value.extended && frame.value.length == count * BLOCK
    ensures frame.Some? ==> |frame.value.data| == FRAME && Laid(frame.value.data, blocks, padding, count)
  {
    if count == 0 || count * BLOCK > FRAME || !ValidLength(count * BLOCK) {
      return None;
    }
    var data := new Byte[FRAME](_ => 0);
    Pad(data, padding, count);
    for n := 0 to |blocks|
      invariant forall i | 0 <= i < n :: 1 <= blocks[i].motor <= count
      invariant Laid(data[..], blocks[..n], padding, count)
    {
      if blocks[n].motor < 1 || blocks[n].motor > count {
        return None;
      }
      LayOne(data[..], blocks[..n], padding, count, blocks[n]);
      assert blocks[..n] + [blocks[n]] == blocks[..n + 1];
      Copy(data, blocks[n].motor, blocks[n].bytes);
    }
    assert blocks[..|blocks|] == blocks;
    return Some(Frame(0x7ff, false, count * BLOCK, data[..]));
  }
}
