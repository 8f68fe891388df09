/**
 The clock side of sendWriteLoop, over every run of CommandPath in either mode: how far apart
 batches start, how old a command may be when it leaves, how often it may be repeated, and that a
 sleep overlooks nothing.
 */
module SendTiming {
  import opened WriteSchedules
  import opened CommandPath

  /** The first frame of a batch other than a zero-gain stop. */
  predicate IsStart(f: Frame) {
    f.first && (f.kind.Bootstrap? || f.kind.Normal?)
  }

  predicate Ending(pc: TxPc) {
    pc == InSafety(Fault) || pc == InSafety(Done)
  }

  // ----- repeats

  /** After k repeats the next one is not due before the publication plus the grace time plus
      k + 1 periods. */
  ghost predicate RepeatsOk(t: Timing, schedule: Schedule, resends: nat) {
    && (!schedule.Active() ==> resends == 0)
    && (schedule.Active() ==> schedule.resendNs >= schedule.publishedNs + t.grace + (resends + 1) * t.period)
    && (resends > 0 ==> resends * t.period + t.grace < t.maxCommandAge)
  }

  // ----- the batch being sent

  ghost predicate JobTiming(t: Timing, s: State) {
    var job, schedule, now := s.job, s.local.schedule, s.view.now;
    s.pc.InFrames? ==>
      && now > 0
      && (job.resend ==> schedule.Active() && now >= schedule.resendNs)
      && (!ZeroStop(s.view.stop) && schedule.lastSendNs != 0 ==> now >= schedule.lastSendNs + t.period / 2)
      && (job.sendAt != 0 ==> job.sendAt >= now)
      && (job.sent > 0 ==> job.sendAt > 0)
      && (job.sent > 0 && Fresh(s) ==> job.sendAt < schedule.publishedNs + t.maxCommandAge)
      && (job.sent == 0 && !s.pc.frame.FrameSend? && !s.pc.frame.FrameFail? && !s.pc.frame.FrameEnd? ==>
          job.sendAt == 0)
      && (s.pc.frame.FrameSend? ==>
            && job.before >= now && job.sendAt > 0 && (job.sent == 0 ==> job.sendAt == job.before)
            && (Fresh(s) ==> job.before < schedule.publishedNs + t.maxCommandAge))
  }

  // ----- the frames that left

  /** A start on the wire is not after this instant. */
  function Anchor(s: State): int {
    if s.pc.InFrames? && s.job.sent > 0 && !ZeroStop(s.view.stop) then s.job.sendAt else s.local.schedule.lastSendNs
  }

  ghost predicate StartsOk(t: Timing, ending: bool, anchor: int, wire: seq<Frame>) {
    && (forall i | 0 <= i < |wire| :: IsStart(wire[i]) ==> wire[i].at > 0 && (ending || wire[i].at <= anchor))
    && (forall i, j | 0 <= i < j < |wire| :: IsStart(wire[i]) && IsStart(wire[j]) ==>
          wire[j].at >= wire[i].at + t.period / 2)
  }

  ghost predicate AgesOk(t: Timing, wire: seq<Frame>) {
    forall i | 0 <= i < |wire| :: wire[i].kind.Normal? ==> wire[i].at < wire[i].publishedNs + t.maxCommandAge
  }

  ghost predicate TimingOk(t: Timing, s: State) {
    && s.clock > 0
    && RepeatsOk(t, s.local.schedule, s.resends)
    && JobTiming(t, s)
    && StartsOk(t, Ending(s.pc), Anchor(s), s.wire)
    && AgesOk(t, s.wire)
  }

  // ----- steps

  lemma OtherFrame(t: Timing, ending: bool, anchor: int, wire: seq<Frame>, f: Frame)
    requires StartsOk(t, ending, anchor, wire) && AgesOk(t, wire) && f.kind.Safety?
    ensures StartsOk(t, ending, anchor, wire + [f]) && AgesOk(t, wire + [f])
  {
  }

  lemma CollectKeepsTiming(c: Config, s: State, ch: Choice)
    requires TimingOk(c.timing, s) && ValidChoice(c, s, ch) && s.pc.InSafety? && Collecting(s.pc.safety)
    ensures TimingOk(c.timing, CollectStep(c, s, ch))
  {
  }

  lemma PerformShape(c: Config, s: State, ch: Choice)
    requires ValidChoice(c, s, ch) && s.pc.InSafety? && !Collecting(s.pc.safety)
    ensures var s' := PerformStep(c, s, ch);
      && s.clock <= s'.clock && !s'.pc.InFrames? && (Ending(s.pc) ==> Ending(s'.pc))
      && (s'.wire == s.wire || exists f: Frame :: f.kind.Safety? && s'.wire == s.wire + [f])
  {
    if s.pc.safety.SafetySend? {
      assert SafetyFrame(s.pc.safety.positions, ch.t).kind.Safety?;
    }
  }

  lemma PerformKeepsTiming(c: Config, s: State, ch: Choice)
    requires TimingOk(c.timing, s) && ValidChoice(c, s, ch) && s.pc.InSafety? && !Collecting(s.pc.safety)
    ensures TimingOk(c.timing, PerformStep(c, s, ch))
  {
    var s' := PerformStep(c, s, ch);
    PerformShape(c, s, ch);
    if s'.wire != s.wire {
      var f: Frame :| f.kind.Safety? && s'.wire == s.wire + [f];
      OtherFrame(c.timing, Ending(s.pc), Anchor(s), s.wire, f);
    }
  }

  lemma ReadKeepsTiming(c: Config, s: State)
    requires ValidTiming(c.timing) && TimingOk(c.timing, s) && s.pc == InLoop(TxRead)
    ensures TimingOk(c.timing, ReadStep(c, s))
  {
  }

  lemma LoopKeepsTiming(c: Config, s: State, ch: Choice)
    requires ValidTiming(c.timing) && TimingOk(c.timing, s) && ValidChoice(c, s, ch) && s.pc.InLoop?
    requires s.pc.loop.Settle? ==> s.view.now > 0
    ensures TimingOk(c.timing, LoopStep(c, s, ch))
  {
    if s.pc.loop.TxRead? {
      ReadKeepsTiming(c, s);
    }
  }

  lemma NextStart(t: Timing, anchor: int, anchor': int, wire: seq<Frame>, f: Frame)
    requires StartsOk(t, false, anchor, wire) && AgesOk(t, wire) && t.period > 0
    requires IsStart(f) ==> f.at > 0 && f.at <= anchor' && (anchor > 0 ==> f.at >= anchor + t.period / 2)
    requires anchor <= anchor'
    requires f.kind.Normal? ==> f.at < f.publishedNs + t.maxCommandAge
    ensures StartsOk(t, false, anchor', wire + [f]) && AgesOk(t, wire + [f])
  {
  }

  lemma SendKeepsTiming(c: Config, s: State, ch: Choice)
    requires ValidTiming(c.timing) && TimingOk(c.timing, s) && s.pc == InFrames(FrameSend)
    ensures TimingOk(c.timing, FrameStep(c, s, ch))
  {
    if ch.yes {
      NextStart(c.timing, Anchor(s), Anchor(FrameStep(c, s, ch)), s.wire, NextFrame(c, s));
    }
  }

  lemma RepeatOnce(t: Timing, schedule: Schedule, resends: nat, at: int)
    requires ValidTiming(t) && RepeatsOk(t, schedule, resends) && schedule.Active()
    requires schedule.resendNs <= at < schedule.publishedNs + t.maxCommandAge
    ensures RepeatsOk(t, schedule.Sent(t, at, true), resends + 1)
  {
    assert (resends + 2) * t.period == (resends + 1) * t.period + t.period;
  }

  lemma EndKeepsTiming(c: Config, s: State, ch: Choice)
    requires ValidTiming(c.timing) && TimingOk(c.timing, s) && s.pc == InFrames(FrameEnd)
    ensures TimingOk(c.timing, FrameStep(c, s, ch))
  {
    if s.job.sent > 0 && s.job.resend && Fresh(s) {
      RepeatOnce(c.timing, s.local.schedule, s.resends, s.job.sendAt);
    }
  }

  lemma ClockKeepsTiming(c: Config, s: State, ch: Choice)
    requires ValidTiming(c.timing) && TimingOk(c.timing, s) && ValidChoice(c, s, ch)
    requires s.pc == InFrames(FrameClock) || s.pc == InFrames(FrameStamp)
    requires s.view.now <= s.clock
    ensures TimingOk(c.timing, FrameStep(c, s, ch))
  {
  }

  /** The frame steps that only look at a flag or note a failure. */
  lemma LookKeepsTiming(c: Config, s: State, ch: Choice)
    requires TimingOk(c.timing, s) && s.pc.InFrames?
    requires !s.pc.frame.FrameSend? && !s.pc.frame.FrameEnd? && !s.pc.frame.FrameClock? && !s.pc.frame.FrameStamp?
    ensures TimingOk(c.timing, FrameStep(c, s, ch))
  {
  }

  lemma FramesKeepTiming(c: Config, s: State, ch: Choice)
    requires ValidTiming(c.timing) && TimingOk(c.timing, s) && ValidChoice(c, s, ch) && s.pc.InFrames?
    requires s.view.now <= s.clock
    ensures TimingOk(c.timing, FrameStep(c, s, ch))
  {
    match s.pc.frame
    case FrameSend => SendKeepsTiming(c, s, ch);
    case FrameEnd => EndKeepsTiming(c, s, ch);
    case FrameClock => ClockKeepsTiming(c, s, ch);
    case FrameStamp => ClockKeepsTiming(c, s, ch);
    case _ => LookKeepsTiming(c, s, ch);
  }

  lemma TxKeepsTiming(c: Config, s: State, ch: Choice)
    requires ValidTiming(c.timing) && TimingOk(c.timing, s) && ValidChoice(c, s, ch)
    requires 0 < s.view.now <= s.clock
    ensures TimingOk(c.timing, TxStep(c, s, ch))
  {
    match s.pc
    case InSafety(pc) =>
      if Collecting(pc) {
        CollectKeepsTiming(c, s, ch);
      } else {
        PerformKeepsTiming(c, s, ch);
      }
    case InLoop(_) => LoopKeepsTiming(c, s, ch);
    case InFrames(_) => FramesKeepTiming(c, s, ch);
  }

  // ----- sleeping

  /** Between the snapshot read of this pass and its end. */
  predicate AfterRead(pc: TxPc) {
    match pc
    case InLoop(p) => p.TxArmed? || p.TxRxFault? || p.TxReplies? || p.Decide? || p.Settle? || p.Sleep?
    case InSafety(p) =>
      || (p.Collect? && p.mid) || (p.Capture? && p.mid) || (p.StopStore? && p.mid) || (p.StopAsk? && p.mid)
      || (p.Requesting? && p.next.ToSettle?)
    case InFrames(_) => false
  }

  predicate AfterDecide(pc: TxPc) {
    AfterRead(pc) && pc != InLoop(TxArmed) && pc != InLoop(TxRxFault) && pc != InLoop(TxReplies) && pc != InLoop(Decide)
  }

  /** Stamps loaded one by one: each axis so far was not above what it is now. */
  predicate Loaded(loaded: seq<int>, stamps: seq<int>) {
    |loaded| <= |stamps| && forall a | 0 <= a < |loaded| :: 0 <= loaded[a] <= stamps[a]
  }

  /** The reply stamps only rise, so the second round of loads in a pass is not below the first. */
  ghost predicate RepliesOk(axes: nat, rx: Rx, clock: int, pc: TxPc, view: View) {
    && |rx.stamps| == axes && rx.read <= clock && (forall a | 0 <= a < axes :: 0 <= rx.stamps[a] <= rx.read)
    && Loaded(view.seen.received, rx.stamps) && Loaded(view.captured, rx.stamps)
    && (pc == InLoop(Decide) || AfterDecide(pc) ==> |view.seen.received| == axes)
    && (pc == InSafety(Capture(true)) ==> forall a | 0 <= a < |view.captured| ::
        view.seen.received[a] <= view.captured[a])
  }

  /** Both rounds are complete and the capture found nothing stale. */
  ghost predicate Captured(t: Timing, firstSend: int, view: View) {
    && view.now <= view.evaluated && !CaptureStale(t, firstSend, view.captured, view.evaluated)
    && Raised(view.seen.received, view.captured)
  }

  /** What the loop knows on its way to sleep. */
  ghost predicate WayToSleep(c: Config, s: State) {
    var t, local, view := c.timing, s.local, s.view;
    && 0 < view.now <= s.clock
    && (AfterRead(s.pc) && local.snapshotFailed ==> local.retryDue == view.now + RetryDelay(c))
    && (AfterDecide(s.pc) ==> view.stop == StopReason(t, local, view.seen, view.now))
    && (s.pc.InSafety? && AfterRead(s.pc) && !s.pc.safety.Collect? && !s.pc.safety.Capture? ==> view.staleDetected)
    && ((s.pc == InLoop(Settle) || s.pc == InLoop(Sleep)) && t.group && view.stop == NoStop ==>
          view.staleDetected || Captured(t, local.firstSend, view))
    && RepliesOk(c.axes, s.rx, s.clock, s.pc, view)
    && (s.pc == InLoop(Sleep) ==>
          view.stop == NoStop && !Due(t, local, NoStop, view.now) && (t.group ==> !view.staleDetected))
  }

  lemma CaptureKeepsWay(c: Config, s: State, ch: Choice)
    requires WayToSleep(c, s) && ValidChoice(c, s, ch) && s.pc.InSafety? && s.pc.safety.Capture?
    ensures WayToSleep(c, CollectStep(c, s, ch))
  {
  }

  lemma CollectKeepsWay(c: Config, s: State, ch: Choice)
    requires WayToSleep(c, s) && ValidChoice(c, s, ch) && s.pc.InSafety? && Collecting(s.pc.safety)
    requires !Finished(s.safety.result)
    ensures WayToSleep(c, CollectStep(c, s, ch))
  {
    if s.pc.safety.Capture? {
      CaptureKeepsWay(c, s, ch);
    }
  }

  lemma PerformKeepsWay(c: Config, s: State, ch: Choice)
    requires WayToSleep(c, s) && ValidChoice(c, s, ch) && s.pc.InSafety? && !Collecting(s.pc.safety)
    ensures WayToSleep(c, PerformStep(c, s, ch))
  {
    var s' := PerformStep(c, s, ch);
    assert !AfterRead(s'.pc) && s'.pc != InLoop(Settle) && s'.pc != InLoop(Sleep) && s.clock <= s'.clock;
  }

  lemma SettleKeepsWay(c: Config, s: State, ch: Choice)
    requires WayToSleep(c, s) && ValidChoice(c, s, ch) && s.pc == InLoop(Settle)
    ensures WayToSleep(c, SettleStep(c, s, ch))
  {
  }

  lemma ReadKeepsWay(c: Config, s: State)
    requires WayToSleep(c, s) && s.pc == InLoop(TxRead)
    ensures WayToSleep(c, ReadStep(c, s))
  {
  }

  lemma FirstLoadKeepsWay(c: Config, s: State, ch: Choice)
    requires WayToSleep(c, s) && s.pc == InLoop(TxRxFault)
    ensures WayToSleep(c, LoopStep(c, s, ch))
  {
  }

  /** One more stamp loaded. */
  lemma LoadedMore(axes: nat, rx: Rx, clock: int, view: View)
    requires RepliesOk(axes, rx, clock, InLoop(TxReplies), view) && |view.seen.received| < |rx.stamps|
    ensures var received := view.seen.received + [rx.stamps[|view.seen.received|]];
      RepliesOk(axes, rx, clock, InLoop(TxReplies), view.(seen := view.seen.(received := received)))
  {
  }

  lemma NextLoadKeepsWay(c: Config, s: State, ch: Choice)
    requires WayToSleep(c, s) && s.pc == InLoop(TxReplies)
    ensures WayToSleep(c, LoopStep(c, s, ch))
  {
    if |s.view.seen.received| < |s.rx.stamps| {
      LoadedMore(c.axes, s.rx, s.clock, s.view);
    }
  }

  lemma DecideKeepsWay(c: Config, s: State, ch: Choice)
    requires WayToSleep(c, s) && s.pc == InLoop(Decide)
    ensures WayToSleep(c, LoopStep(c, s, ch))
  {
  }

  lemma EarlyKeepsWay(c: Config, s: State, ch: Choice)
    requires ValidConfig(c) && WayToSleep(c, s) && ValidChoice(c, s, ch) && s.pc.InLoop?
    requires !s.pc.loop.Settle? && !s.pc.loop.TxRead? && !s.pc.loop.TxRxFault? && !s.pc.loop.TxReplies? &&
      !s.pc.loop.Decide?
    ensures WayToSleep(c, LoopStep(c, s, ch))
  {
  }

  lemma LoopKeepsWay(c: Config, s: State, ch: Choice)
    requires ValidConfig(c) && WayToSleep(c, s) && ValidChoice(c, s, ch) && s.pc.InLoop?
    ensures WayToSleep(c, LoopStep(c, s, ch))
  {
    match s.pc.loop
    case Settle => SettleKeepsWay(c, s, ch);
    case TxRead => ReadKeepsWay(c, s);
    case TxRxFault => FirstLoadKeepsWay(c, s, ch);
    case TxReplies => NextLoadKeepsWay(c, s, ch);
    case Decide => DecideKeepsWay(c, s, ch);
    case _ => EarlyKeepsWay(c, s, ch);
  }

  lemma FramesKeepWay(c: Config, s: State, ch: Choice)
    requires WayToSleep(c, s) && ValidChoice(c, s, ch) && s.pc.InFrames?
    ensures WayToSleep(c, FrameStep(c, s, ch))
  {
  }

  lemma TxKeepsWay(c: Config, s: State, ch: Choice)
    requires ValidConfig(c) && WayToSleep(c, s) && ValidChoice(c, s, ch)
    requires s.pc.InSafety? && Collecting(s.pc.safety) ==> !Finished(s.safety.result)
    ensures WayToSleep(c, TxStep(c, s, ch))
  {
    match s.pc
    case InSafety(pc) =>
      if Collecting(pc) {
        CollectKeepsWay(c, s, ch);
      } else {
        PerformKeepsWay(c, s, ch);
      }
    case InLoop(_) => LoopKeepsWay(c, s, ch);
    case InFrames(_) => FramesKeepWay(c, s, ch);
  }

  /** Going to sleep means that nothing is due now as far as the loaded values tell, in pair mode
      with the stamps of the second, later round; and the stamps have only risen since. */
  lemma AsleepIsQuiet(c: Config, s: State)
    requires ValidConfig(c) && WayToSleep(c, s) && s.pc == InLoop(Sleep)
    ensures Settled(c.timing, s.local, s.view.seen, s.view.now) && Raised(s.view.seen.received, s.rx.stamps)
    ensures c.timing.group ==> Raised(s.view.seen.received, s.view.captured)
    ensures c.timing.group ==> Quiet(c.timing, s.local, s.view.seen.(received := s.view.captured), s.view.now)
  {
  }
}
