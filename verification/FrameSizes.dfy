/** In pair mode every control frame on the bus has a command for every axis. */
module FrameSizes {
  import opened Packets
  import opened CommandPath
  import opened CommandDelivery
  import CommandRuns

  ghost predicate Whole(axes: nat, wire: seq<Frame>) {
    forall i | 0 <= i < |wire| :: |wire[i].commands| == axes
  }

  ghost predicate Sized(axes: nat, s: State) {
    && Whole(axes, s.wire)
    && (s.pc.InFrames? ==> |s.job.commands| == axes)
    && (s.pc.InSafety? && s.pc.safety.SafetySend? ==> |s.pc.safety.positions| == axes)
  }

  lemma SafetyKeepsSizes(c: Config, s: State, ch: Choice)
    requires Sized(c.axes, s) && ValidChoice(c, s, ch) && s.pc.InSafety?
    ensures Sized(c.axes, TxStep(c, s, ch))
  {
  }

  lemma LoopKeepsSizes(c: Config, s: State, ch: Choice)
    requires Sized(c.axes, s) && ValidChoice(c, s, ch) && s.pc.InLoop? && CacheOk(c, s)
    ensures Sized(c.axes, LoopStep(c, s, ch))
  {
    if s.pc.loop.Settle? && s.local.schedule.Active() {
      assert |Commands(s.box.cache)| == c.axes;
    }
  }

  lemma FramesKeepSizes(c: Config, s: State, ch: Choice)
    requires Sized(c.axes, s) && s.pc.InFrames? && c.broadcast
    ensures Sized(c.axes, FrameStep(c, s, ch))
  {
    if s.pc.frame.FrameSend? && ch.yes {
      assert |NextFrame(c, s).commands| == c.axes;
    }
  }

  lemma TxKeepsSizes(c: Config, s: State, ch: Choice)
    requires Sized(c.axes, s) && ValidChoice(c, s, ch) && CacheOk(c, s) && c.broadcast
    ensures Sized(c.axes, TxStep(c, s, ch))
  {
    match s.pc
    case InSafety(_) => SafetyKeepsSizes(c, s, ch);
    case InLoop(_) => LoopKeepsSizes(c, s, ch);
    case InFrames(_) => FramesKeepSizes(c, s, ch);
  }

  lemma NextKeepsSizes(c: Config, s: State, s': State)
    requires Sized(c.axes, s) && CacheOk(c, s) && c.broadcast && Next(c, s, s')
    ensures Sized(c.axes, s')
  {
    var who, ch :| Step(c, s, s', who, ch);
    match who
    case ControlThread => ControlLeavesTx(c, s, ch);
    case SendThread => TxKeepsSizes(c, s, ch);
    case Environment(_) =>
  }

  /** Every frame of every run in pair mode. */
  lemma {:induction false} FramesAreWhole(c: Config, run: seq<State>, i: nat)
    requires IsRun(c, run) && c.timing.group && i < |run|
    ensures Sized(c.axes, run[i])
  {
    if i > 0 {
      FramesAreWhole(c, run, i - 1);
      CommandRuns.RunDelivers(c, run, i - 1);
      assert StepAt(c, run, i - 1);
      NextKeepsSizes(c, run[i - 1], run[i]);
    }
  }
}
