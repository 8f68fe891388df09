/**
 From an accepted batch to the bytes on the bus in pair mode: the bounds a configuration may set
 (src/pair_system_interface.cpp), the encoding of one batch (src/bus_streamer.cpp), and what each
 motor reads out of its slot.
 */
module PairBytes {
  import opened Doubles
  import opened Wrappers
  import opened PairCommits
  import opened MitProtocol
  import opened Actuators
  import Packets
  import CommandPath
  import CommandRuns
  import FrameSizes

  // ----- the bounds of a configuration

  /** The widest bounds a motor allows for field `f` of its joint. */
  function LowerLimit(d: Actuator, f: nat): real
    requires ValidActuator(d)
  {
    var l := d.limits;
    match f
    case 0 => Greatest(d.lower, Least(Turned(l.p.min.value - d.offset, d.direction),
                                      Turned(l.p.max.value - d.offset, d.direction)))
    case 1 => Least(Turned(l.v.min.value, d.direction), Turned(l.v.max.value, d.direction))
    case 4 => Least(Turned(l.torque.min.value, d.direction), Turned(l.torque.max.value, d.direction))
    case _ => 0.0
  }

  function UpperLimit(d: Actuator, f: nat): real
    requires ValidActuator(d)
  {
    var l := d.limits;
    match f
    case 0 => Least(d.upper, Greatest(Turned(l.p.min.value - d.offset, d.direction),
                                      Turned(l.p.max.value - d.offset, d.direction)))
    case 1 => Greatest(Turned(l.v.min.value, d.direction), Turned(l.v.max.value, d.direction))
    case 2 => l.kp.max.value
    case 3 => l.kd.max.value
    case _ => Greatest(Turned(l.torque.min.value, d.direction), Turned(l.torque.max.value, d.direction))
  }

  predicate FieldAllowed(d: Actuator, b: Bounds, axis: nat, f: nat)
    requires ValidActuator(d) && FIELDS * axis + f < |b.lower| == |b.upper|
  {
    var lower, upper := b.lower[FIELDS * axis + f], b.upper[FIELDS * axis + f];
    LowerLimit(d, f) <= lower <= upper <= UpperLimit(d, f) && (f != 0 ==> lower <= 0.0 <= upper)
  }

  predicate AxisAllowed(d: Actuator, b: Bounds, axis: nat)
    requires ValidActuator(d) && FIELDS * axis + FIELDS <= |b.lower| == |b.upper|
  {
    FieldAllowed(d, b, axis, 0) && FieldAllowed(d, b, axis, 1) && FieldAllowed(d, b, axis, 2) &&
    FieldAllowed(d, b, axis, 3) && FieldAllowed(d, b, axis, 4)
  }

  /** What the configuration check demands of the bounds. Motor a + 1 drives axis a. */
  predicate ProfileOk(drives: seq<Actuator>, b: Bounds) {
    && |b.lower| == |b.upper| == FIELDS * |drives|
    && (forall a | 0 <= a < |drives| :: ValidActuator(drives[a]) && AxisAllowed(drives[a], b, a))
  }

  // ----- saturation never acts on a batch in bounds

  lemma TurnedRange(x: real, lo: real, hi: real, offset: real, direction: int)
    requires direction == 1 || direction == -1
    requires Least(Turned(lo - offset, direction), Turned(hi - offset, direction)) <= x
    requires x <= Greatest(Turned(lo - offset, direction), Turned(hi - offset, direction)) && lo < hi
    ensures lo <= Turned(x, direction) + offset <= hi
  {
    TurnedBySign(x, direction);
    TurnedBySign(lo - offset, direction);
    TurnedBySign(hi - offset, direction);
  }

  /** The five values of one axis, inside bounds that the configuration check let through. */
  predicate AxisInBounds(b: Bounds, values: seq<Double>, a: nat)
    requires FIELDS * a + FIELDS <= |values| == |b.lower| == |b.upper|
  {
    && Within(values[FIELDS * a], b.lower[FIELDS * a], b.upper[FIELDS * a])
    && Within(values[FIELDS * a + 1], b.lower[FIELDS * a + 1], b.upper[FIELDS * a + 1])
    && Within(values[FIELDS * a + 2], b.lower[FIELDS * a + 2], b.upper[FIELDS * a + 2])
    && Within(values[FIELDS * a + 3], b.lower[FIELDS * a + 3], b.upper[FIELDS * a + 3])
    && Within(values[FIELDS * a + 4], b.lower[FIELDS * a + 4], b.upper[FIELDS * a + 4])
  }

  /** The command in motor coordinates, without any saturation. */
  function Exact(d: Actuator, p: real, v: real, kp: real, kd: real, effort: real): MitProtocol.Command {
    MitProtocol.Command(Fin(Turned(p, d.direction) + d.offset), Fin(Turned(v, d.direction)), Fin(kp), Fin(kd),
                        Fin(Turned(effort, d.direction)))
  }

  lemma NothingSaturates(d: Actuator, p: real, v: real, kp: real, kd: real, effort: real)
    requires ValidActuator(d)
    requires LowerLimit(d, 0) <= p <= UpperLimit(d, 0) && LowerLimit(d, 1) <= v <= UpperLimit(d, 1)
    requires 0.0 <= kp <= d.limits.kp.max.value && 0.0 <= kd <= d.limits.kd.max.value
    requires LowerLimit(d, 4) <= effort <= UpperLimit(d, 4)
    ensures MotorCommand(d, p, v, kp, kd, effort) == Exact(d, p, v, kp, kd, effort)
  {
    var l := d.limits;
    TurnedRange(p, l.p.min.value, l.p.max.value, d.offset, d.direction);
    TurnedRange(v, l.v.min.value, l.v.max.value, 0.0, d.direction);
    TurnedRange(effort, l.torque.min.value, l.torque.max.value, 0.0, d.direction);
  }

  // ----- what the motor reads

  /** Eight bytes out of which a motor reads these five joint values, each rounded down in motor
      coordinates by less than one step of its field. */
  predicate Reads(d: Actuator, bytes: seq<Byte>, p: real, v: real, kp: real, kd: real, effort: real) {
    FieldsArrive(Exact(d, p, v, kp, kd, effort), d.limits, bytes)
  }

  function BlockOf(d: Actuator, c: Packets.Command): Option<seq<Byte>>
    requires ValidActuator(d)
  {
    EncodeControlBlock(d, c.position, c.velocity, c.kp, c.kd, c.effort)
  }

  /** The five values of axis a as one command. */
  function CommandOf(values: seq<Double>, a: nat): Packets.Command
    requires FIELDS * a + FIELDS <= |values|
  {
    Packets.Command(values[FIELDS * a], values[FIELDS * a + 1], values[FIELDS * a + 2], values[FIELDS * a + 3],
                    values[FIELDS * a + 4])
  }

  /** A motor reads the five values of axis a. */
  predicate ReadsValues(d: Actuator, bytes: seq<Byte>, values: seq<Double>, a: nat)
    requires FIELDS * a + FIELDS <= |values|
  {
    var w := CommandOf(values, a);
    && w.position.Fin? && w.velocity.Fin? && w.kp.Fin? && w.kd.Fin? && w.effort.Fin?
    && Reads(d, bytes, w.position.value, w.velocity.value, w.kp.value, w.kd.value, w.effort.value)
  }

  /** A motor reads no gains at all, and a velocity and an effort of zero or less than one step below,
      zero exactly where that is a step of its range. */
  predicate ReadsReleased(d: Actuator, bytes: seq<Byte>)
    requires ValidActuator(d)
  {
    && |bytes| == 8
    && var f := Unpack(bytes);
       && UintToFloat(f.kp, d.limits.kp, 12) == Fin(0.0) && UintToFloat(f.kd, d.limits.kd, 12) == Fin(0.0)
       && ReadsZero(f.v, d.limits.v, 12) && ReadsZero(f.torque, d.limits.torque, 12)
  }

  lemma BlockIsRead(d: Actuator, b: Bounds, values: seq<Double>, a: nat)
    requires FIELDS * a + FIELDS <= |values| == |b.lower| == |b.upper|
    requires ValidActuator(d) && d.enabled && AxisAllowed(d, b, a) && AxisInBounds(b, values, a)
    ensures BlockOf(d, CommandOf(values, a)).Some?
    ensures ReadsValues(d, BlockOf(d, CommandOf(values, a)).value, values, a)
  {
    var w := CommandOf(values, a);
    NothingSaturates(d, w.position.value, w.velocity.value, w.kp.value, w.kd.value, w.effort.value);
    EncodedFieldsArrive(Exact(d, w.position.value, w.velocity.value, w.kp.value, w.kd.value, w.effort.value), d.limits);
  }

  /** Zero is inside the motor's ranges, because it is inside the configured ones. */
  lemma ZeroIsAllowed(d: Actuator, b: Bounds, a: nat)
    requires ValidActuator(d) && FIELDS * a + FIELDS <= |b.lower| == |b.upper| && AxisAllowed(d, b, a)
    ensures InRange(Fin(0.0), d.limits.v) && InRange(Fin(0.0), d.limits.torque)
  {
    var l := d.limits;
    TurnedBySign(0.0, d.direction);
    TurnedRange(0.0, l.v.min.value, l.v.max.value, 0.0, d.direction);
    TurnedRange(0.0, l.torque.min.value, l.torque.max.value, 0.0, d.direction);
  }

  lemma ReleasedCommand(d: Actuator, p: real)
    requires ValidActuator(d) && InRange(Fin(0.0), d.limits.v) && InRange(Fin(0.0), d.limits.torque)
    ensures var c := MotorCommand(d, p, 0.0, 0.0, 0.0, 0.0);
      c.velocity == c.kp == c.kd == c.torque == Fin(0.0)
  {
    TurnedBySign(0.0, d.direction);
  }

  lemma ReleasedIsRead(d: Actuator, c: Packets.Command)
    requires ValidActuator(d) && d.enabled && InRange(Fin(0.0), d.limits.v) && InRange(Fin(0.0), d.limits.torque)
    requires Packets.ZeroGain(c) && c.position.Fin?
    ensures BlockOf(d, c).Some? && ReadsReleased(d, BlockOf(d, c).value)
  {
    var m := MotorCommand(d, c.position.value, 0.0, 0.0, 0.0, 0.0);
    ReleasedCommand(d, c.position.value);
    PackRoundTrip(Quantised(m, d.limits));
    ZeroQuantised(d.limits.v, 12);
    ZeroQuantised(d.limits.kp, 12);
    ZeroQuantised(d.limits.kd, 12);
    ZeroQuantised(d.limits.torque, 12);
    BottomIsZero(d.limits.kp, 12);
    BottomIsZero(d.limits.kd, 12);
  }

  /** A released motor with a symmetric torque range is still told an effort of half a step below
      zero, whatever its other ranges, direction, offset and position. */
  lemma ReleasedEffortIsHalfAStep(d: Actuator, p: real)
    requires ValidActuator(d) && d.enabled && InRange(Fin(0.0), d.limits.v)
    requires d.limits.torque.min.value == -d.limits.torque.max.value
    ensures var block := BlockOf(d, Packets.ReleasedAt(Fin(p)));
      && block.Some? && |block.value| == 8
      && UintToFloat(Unpack(block.value).torque, d.limits.torque, 12) == Fin(-0.5 * Quantum(d.limits.torque, 12))
      && Quantum(d.limits.torque, 12) > 0.0
  {
    var m := MotorCommand(d, p, 0.0, 0.0, 0.0, 0.0);
    ReleasedCommand(d, p);
    PackRoundTrip(Quantised(m, d.limits));
    SymmetricZero(d.limits.torque, 12);
    ZeroQuantised(d.limits.torque, 12);
  }

  /** For a MOTOR_70 that is -80/4095. */
  lemma ReleasedEffortIsNotZero(p: real)
    ensures var d := Actuator(true, 1, 0.0, -1.0, 1.0, MOTOR_70, -20.0);
      var block := BlockOf(d, Packets.ReleasedAt(Fin(p)));
      && ValidActuator(d) && block.Some? && |block.value| == 8
      && UintToFloat(Unpack(block.value).torque, d.limits.torque, 12) == Fin(-80.0 / 4095.0)
  {
    ReleasedEffortIsHalfAStep(Actuator(true, 1, 0.0, -1.0, 1.0, MOTOR_70, -20.0), p);
    Tops();
  }

  // ----- one frame

  /** Blocks addressed to the motors in order. */
  predicate InOrder(blocks: seq<Block>) {
    forall i | 0 <= i < |blocks| :: blocks[i].motor == i + 1
  }

  lemma {:induction false} OwnBlock(blocks: seq<Block>, padding: seq<Byte>, a: nat)
    requires InOrder(blocks) && a < |blocks|
    ensures BlockFor(blocks, padding, a + 1) == blocks[a].bytes
  {
    if a + 1 < |blocks| {
      OwnBlock(blocks[..|blocks| - 1], padding, a);
    }
  }

  /** Encode every axis and build the broadcast frame. There is one unless an axis does not encode or
      the block count does not fit, and then each motor's slot holds the block of its own command. */
  method BatchFrame(drives: seq<Actuator>, commands: seq<Packets.Command>, count: nat, padding: seq<Byte>)
    returns (frame: Option<Frame>)
    requires |commands| == |drives| && |padding| == BLOCK && forall a | 0 <= a < |drives| :: ValidActuator(drives[a])
    ensures frame.Some? <==>
      (forall a | 0 <= a < |drives| :: BlockOf(drives[a], commands[a]).Some?) &&
      0 < count && |drives| <= count && count * BLOCK <= FRAME && ValidLength(count * BLOCK)
    ensures frame.Some? ==> forall a | 0 <= a < |drives| ::
      Holds(frame.value.data, a + 1, BlockOf(drives[a], commands[a]).value)
  {
    var blocks: seq<Block> := [];
    for a := 0 to |drives|
      invariant |blocks| == a && InOrder(blocks)
      invariant forall i | 0 <= i < a :: BlockOf(drives[i], commands[i]) == Some(blocks[i].bytes)
    {
      var block := BlockOf(drives[a], commands[a]);
      if block.None? {
        return None;
      }
      blocks := blocks + [Block(a + 1, block.value)];
    }
    OrderFits(blocks, count);
    frame := BuildBroadcastFrame(blocks, count, padding);
    if frame.Some? {
      forall a | 0 <= a < |drives|
        ensures Holds(frame.value.data, a + 1, BlockOf(drives[a], commands[a]).value)
      {
        OwnBlock(blocks, padding, a);
      }
    }
  }

  lemma OrderFits(blocks: seq<Block>, count: nat)
    requires InOrder(blocks)
    ensures (forall i | 0 <= i < |blocks| :: 1 <= blocks[i].motor <= count) <==> |blocks| <= count
  {
    if |blocks| > count {
      assert blocks[|blocks| - 1].motor == |blocks|;
    }
  }

  // ----- every run

  ghost predicate PairFrame(c: CommandPath.Config, run: seq<CommandPath.State>, i: nat, k: nat) {
    CommandPath.IsRun(c, run) && c.timing.group && i < |run| && k < |run[i].wire|
  }

  /** In every run in pair mode, under bounds the configuration check lets through: every axis of
      every normal frame encodes, and its block reads as the accepted values of its generation. */
  lemma AcceptedValuesReachTheMotors(c: CommandPath.Config, run: seq<CommandPath.State>, i: nat, k: nat,
                                     drives: seq<Actuator>, a: nat)
    requires PairFrame(c, run, i, k) && run[i].wire[k].kind.Normal?
    requires |drives| == c.axes && a < c.axes && ProfileOk(drives, c.bounds) && drives[a].enabled
    ensures var g, f := run[i].wire[k].kind.generation, run[i].wire[k];
      && 1 <= g <= |run[i].accepted| && |f.commands| == c.axes
      && |run[i].accepted[g - 1].adopted.values| == c.axes * FIELDS && BlockOf(drives[a], f.commands[a]).Some?
      && ReadsValues(drives[a], BlockOf(drives[a], f.commands[a]).value, run[i].accepted[g - 1].adopted.values, a)
  {
    CommandRuns.EveryFrameIsReleasedOrOneAcceptedBatch(c, run, i, k, k);
    var g := run[i].wire[k].kind.generation;
    CommandRuns.AcceptedBatchesAreConsecutive(c, run, i, g - 1);
    var values := run[i].accepted[g - 1].adopted.values;
    assert AxisInBounds(c.bounds, values, a);
    assert run[i].wire[k].commands[a] == CommandOf(values, a);
    BlockIsRead(drives[a], c.bounds, values, a);
  }

  /** Every axis of every other frame encodes if and only if its position is a number, and then its
      motor reads it as released. */
  lemma OtherFramesRelease(c: CommandPath.Config, run: seq<CommandPath.State>, i: nat, k: nat, drives: seq<Actuator>,
                           a: nat)
    requires PairFrame(c, run, i, k) && !run[i].wire[k].kind.Normal?
    requires |drives| == c.axes && a < c.axes && ProfileOk(drives, c.bounds) && drives[a].enabled
    ensures |run[i].wire[k].commands| == c.axes
    ensures var block := BlockOf(drives[a], run[i].wire[k].commands[a]);
      && (block.Some? <==> run[i].wire[k].commands[a].position.Fin?)
      && (block.Some? ==> ReadsReleased(drives[a], block.value))
  {
    CommandRuns.EveryFrameIsReleasedOrOneAcceptedBatch(c, run, i, k, k);
    FrameSizes.FramesAreWhole(c, run, i);
    ZeroIsAllowed(drives[a], c.bounds, a);
    if run[i].wire[k].commands[a].position.Fin? {
      ReleasedIsRead(drives[a], run[i].wire[k].commands[a]);
    }
  }

  /** What motor a + 1 gets out of its slot. */
  ghost predicate SlotReads(s: CommandPath.State, f: CommandPath.Frame, data: seq<Byte>, d: Actuator, a: nat)
    requires ValidActuator(d)
  {
    && BLOCK * a + BLOCK <= |data|
    && var bytes := data[BLOCK * a..BLOCK * a + BLOCK];
       match f.kind
       case Normal(g) =>
         && 1 <= g <= |s.accepted| && FIELDS * a + FIELDS <= |s.accepted[g - 1].adopted.values|
         && ReadsValues(d, bytes, s.accepted[g - 1].adopted.values, a)
       case _ => ReadsReleased(d, bytes)
  }

  /** A control frame of a run, built as the send thread builds it. In every normal one each motor
      reads the accepted values of its generation out of its own slot; in every other one, that it is
      released. Only a position that is no number can keep a frame from being built. */
  method FrameOnTheBus(ghost c: CommandPath.Config, ghost run: seq<CommandPath.State>, ghost i: nat, ghost k: nat,
                       drives: seq<Actuator>, commands: seq<Packets.Command>, count: nat, padding: seq<Byte>)
    returns (frame: Option<Frame>)
    requires PairFrame(c, run, i, k) && commands == run[i].wire[k].commands
    requires |drives| == c.axes && ProfileOk(drives, c.bounds) && forall a | 0 <= a < |drives| :: drives[a].enabled
    requires |padding| == BLOCK && |drives| <= count && count * BLOCK <= FRAME && ValidLength(count * BLOCK)
    ensures frame.Some? <==> run[i].wire[k].kind.Normal? || forall a | 0 <= a < |commands| :: commands[a].position.Fin?
    ensures frame.Some? ==> forall a | 0 <= a < |drives| ::
      SlotReads(run[i], run[i].wire[k], frame.value.data, drives[a], a)
  {
    Covered(c, run, i, k);
    frame := BatchFrame(drives, commands, count, padding);
    forall a | 0 <= a < |drives|
      ensures BlockOf(drives[a], commands[a]).Some? <==> run[i].wire[k].kind.Normal? || commands[a].position.Fin?
    {
      Encodes(c, run, i, k, drives, a);
    }
    if frame.Some? {
      forall a | 0 <= a < |drives|
        ensures SlotReads(run[i], run[i].wire[k], frame.value.data, drives[a], a)
      {
        SlotIsRead(c, run, i, k, drives, frame.value.data, a);
      }
    }
  }

  lemma Covered(c: CommandPath.Config, run: seq<CommandPath.State>, i: nat, k: nat)
    requires PairFrame(c, run, i, k)
    ensures |run[i].wire[k].commands| == c.axes > 0
  {
    FrameSizes.FramesAreWhole(c, run, i);
  }

  lemma Encodes(c: CommandPath.Config, run: seq<CommandPath.State>, i: nat, k: nat, drives: seq<Actuator>, a: nat)
    requires PairFrame(c, run, i, k) && |run[i].wire[k].commands| == c.axes
    requires |drives| == c.axes && a < c.axes && ProfileOk(drives, c.bounds) && drives[a].enabled
    ensures BlockOf(drives[a], run[i].wire[k].commands[a]).Some? <==>
      run[i].wire[k].kind.Normal? || run[i].wire[k].commands[a].position.Fin?
  {
    if run[i].wire[k].kind.Normal? {
      AcceptedValuesReachTheMotors(c, run, i, k, drives, a);
    } else {
      OtherFramesRelease(c, run, i, k, drives, a);
    }
  }

  lemma SlotIsRead(c: CommandPath.Config, run: seq<CommandPath.State>, i: nat, k: nat, drives: seq<Actuator>,
                   data: seq<Byte>, a: nat)
    requires PairFrame(c, run, i, k) && |run[i].wire[k].commands| == c.axes
    requires |drives| == c.axes && a < c.axes && ProfileOk(drives, c.bounds) && drives[a].enabled
    ensures var block := BlockOf(drives[a], run[i].wire[k].commands[a]);
      block.Some? && Holds(data, a + 1, block.value) ==> SlotReads(run[i], run[i].wire[k], data, drives[a], a)
  {
    if run[i].wire[k].kind.Normal? {
      AcceptedValuesReachTheMotors(c, run, i, k, drives, a);
    } else {
      OtherFramesRelease(c, run, i, k, drives, a);
    }
  }
}
