/**
 How often one publication is repeated, counted on the wire, over every run of CommandPath in
 either mode.
 */
module RepeatCounts {
  import opened Seqlock
  import opened WriteSchedules
  import opened CommandPath
  import opened CommandDelivery
  import opened SendTiming

  /** The first frame of a repeat of publication g. */
  predicate IsRepeat(f: Frame, g: nat) {
    f.first && f.resend && f.kind == Normal(g)
  }

  function Repeats(wire: seq<Frame>, g: nat): nat {
    if wire == [] then 0 else Repeats(wire[..|wire| - 1], g) + (if IsRepeat(wire[|wire| - 1], g) then 1 else 0)
  }

  lemma OneMoreFrameCounts(wire: seq<Frame>, f: Frame, g: nat)
    ensures Repeats(wire + [f], g) == Repeats(wire, g) + (if IsRepeat(f, g) then 1 else 0)
  {
    assert (wire + [f])[..|wire|] == wire;
  }

  /** k repeats fit: k periods plus the grace time stay below the maximum command age. */
  predicate Fits(t: Timing, k: nat) {
    k > 0 ==> k * t.period + t.grace < t.maxCommandAge
  }

  /** No frame carries a number above the schedule's. */
  ghost predicate NumbersUpTo(wire: seq<Frame>, number: nat) {
    forall i | 0 <= i < |wire| && wire[i].kind.Normal? :: wire[i].kind.generation <= number
  }

  lemma {:induction false} NoneAbove(wire: seq<Frame>, number: nat, g: nat)
    requires NumbersUpTo(wire, number) && number < g
    ensures Repeats(wire, g) == 0
  {
    if wire != [] {
      NoneAbove(wire[..|wire| - 1], number, g);
      assert wire[|wire| - 1].kind.Normal? ==> wire[|wire| - 1].kind.generation <= number;
    }
  }

  /** A repeat is on the wire that the schedule does not know of yet. */
  function Underway(s: State): nat {
    if s.pc.InFrames? && s.job.sent > 0 && s.job.resend && Fresh(s) then 1 else 0
  }

  ghost predicate OthersFit(t: Timing, wire: seq<Frame>, number: nat) {
    forall g: nat | g != number :: Fits(t, Repeats(wire, g))
  }

  ghost predicate Counted(t: Timing, s: State) {
    && NumbersUpTo(s.wire, s.local.schedule.sequence)
    && OthersFit(t, s.wire, s.local.schedule.sequence)
    && Repeats(s.wire, s.local.schedule.sequence) == s.resends + Underway(s)
  }

  /** The current publication fits too, its repeat underway included. */
  lemma CurrentFits(t: Timing, s: State)
    requires ValidTiming(t) && TimingOk(t, s) && Counted(t, s)
    ensures Fits(t, Repeats(s.wire, s.local.schedule.sequence))
  {
    if Underway(s) == 1 {
      RepeatOnce(t, s.local.schedule, s.resends, s.job.sendAt);
    }
  }

  lemma AllFit(t: Timing, s: State, g: nat)
    requires ValidTiming(t) && TimingOk(t, s) && Counted(t, s)
    ensures Fits(t, Repeats(s.wire, g))
  {
    CurrentFits(t, s);
  }

  // ----- steps

  lemma FrameKeepsOthers(t: Timing, wire: seq<Frame>, f: Frame, number: nat)
    requires OthersFit(t, wire, number) && NumbersUpTo(wire, number)
    requires f.kind.Normal? ==> f.kind.generation == number
    ensures OthersFit(t, wire + [f], number) && NumbersUpTo(wire + [f], number)
  {
    forall g: nat | g != number
      ensures Fits(t, Repeats(wire + [f], g))
    {
      OneMoreFrameCounts(wire, f, g);
    }
  }

  lemma SafetyShape(c: Config, s: State, ch: Choice)
    requires s.pc.InSafety?
    ensures var s' := TxStep(c, s, ch);
      && s'.local == s.local && s'.resends == s.resends && !s'.pc.InFrames?
      && s'.wire ==
         if s.pc.safety.SafetySend? && ch.yes then s.wire + [SafetyFrame(s.pc.safety.positions, ch.t)] else s.wire
  {
  }

  lemma SafetyKeepsCount(c: Config, s: State, ch: Choice)
    requires Counted(c.timing, s) && s.pc.InSafety?
    ensures Counted(c.timing, TxStep(c, s, ch))
  {
    SafetyShape(c, s, ch);
    if s.pc.safety.SafetySend? && ch.yes {
      var f, number := SafetyFrame(s.pc.safety.positions, ch.t), s.local.schedule.sequence;
      FrameKeepsOthers(c.timing, s.wire, f, number);
      OneMoreFrameCounts(s.wire, f, number);
    }
  }

  /** A newer publication starts at zero; the old one's count stays below its bound. */
  lemma ReadKeepsCount(c: Config, s: State)
    requires ValidTiming(c.timing) && TimingOk(c.timing, s) && Counted(c.timing, s)
    requires TransportOk(c, s) && CacheOk(c, s) && s.pc == InLoop(TxRead)
    ensures Counted(c.timing, ReadStep(c, s))
  {
    var s', number := ReadStep(c, s), s.local.schedule.sequence;
    var number' := s'.local.schedule.sequence;
    if Load(s.memory, s.box.reader).phase.Won? {
      WonReadHoldsNewest(c, s);
      WonReadTakes(c, s, s.published[|s.published| - 1]);
    }
    if number' != number {
      NoneAbove(s.wire, number, number');
      CurrentFits(c.timing, s);
      assert OthersFit(c.timing, s.wire, number');
    }
  }

  lemma LoopKeepsCount(c: Config, s: State, ch: Choice)
    requires ValidTiming(c.timing) && TimingOk(c.timing, s) && Counted(c.timing, s)
    requires TransportOk(c, s) && CacheOk(c, s) && s.pc.InLoop?
    ensures Counted(c.timing, LoopStep(c, s, ch))
  {
    if s.pc.loop.TxRead? {
      ReadKeepsCount(c, s);
    }
  }

  lemma SendKeepsCount(c: Config, s: State, ch: Choice)
    requires Counted(c.timing, s) && s.pc == InFrames(FrameSend)
    ensures Counted(c.timing, FrameStep(c, s, ch))
  {
    if ch.yes {
      FrameKeepsOthers(c.timing, s.wire, NextFrame(c, s), s.local.schedule.sequence);
      OneMoreFrameCounts(s.wire, NextFrame(c, s), s.local.schedule.sequence);
    }
  }

  lemma FramesKeepCount(c: Config, s: State, ch: Choice)
    requires Counted(c.timing, s) && s.pc.InFrames?
    ensures Counted(c.timing, FrameStep(c, s, ch))
  {
    if s.pc.frame.FrameSend? {
      SendKeepsCount(c, s, ch);
    }
  }

  lemma TxKeepsCount(c: Config, s: State, ch: Choice)
    requires ValidTiming(c.timing) && TimingOk(c.timing, s) && Counted(c.timing, s)
    requires TransportOk(c, s) && CacheOk(c, s)
    ensures Counted(c.timing, TxStep(c, s, ch))
  {
    match s.pc
    case InSafety(_) => SafetyKeepsCount(c, s, ch);
    case InLoop(_) => LoopKeepsCount(c, s, ch);
    case InFrames(_) => FramesKeepCount(c, s, ch);
  }
}
