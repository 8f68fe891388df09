/**
 The one-shot safety broadcast of one activation, over every run of CommandPath in pair mode:
 GroupSafety in include/bxi_hardware/bus_streamer.hpp, performGroupSafety in src/bus_streamer.cpp.
 */
module SafetyProtocol {
  import opened PairCommits
  import opened CommandPath

  /** Between the exchange that claims the attempt and the store that ends it. */
  predicate Attempting(pc: TxPc) {
    pc.InSafety? && (pc.safety.Prepare? || pc.safety.Cannot? || pc.safety.SafetySend? || pc.safety.SafetyEnd?)
  }

  predicate Leaving(pc: TxPc) {
    pc == InSafety(AfterSafety) || pc == InSafety(Fault) || pc == InSafety(Done)
  }

  /** This frame batch has passed its last look at the request bits. */
  predicate PastCheck(pc: TxPc) {
    pc.InFrames? && (pc.frame.FrameVersion? || pc.frame.FrameRx? || pc.frame.FrameClock? ||
                     pc.frame.FrameStamp? || pc.frame.FrameSend?)
  }

  predicate IsSafety(f: Frame) { f.kind.Safety? }

  /** A normal control frame that left after a request had become visible, that is, with a source bit
      set. The time stamps of the request are stored before the bit and nobody looks at them. */
  predicate IsLate(f: Frame) { f.requested && !f.kind.Safety? }

  ghost predicate None(wire: seq<Frame>, which: Frame -> bool) {
    forall i | 0 <= i < |wire| :: !which(wire[i])
  }

  ghost predicate AtMostOne(wire: seq<Frame>, which: Frame -> bool) {
    forall i, j | 0 <= i < j < |wire| :: !(which(wire[i]) && which(wire[j]))
  }

  // ----- the result

  ghost predicate ResultOk(result: SafetyResult, pc: TxPc) {
    (result.Processing? <==> Attempting(pc)) && (Finished(result) ==> Leaving(pc))
  }

  /** An attempt is under way, or ended in something other than giving up. */
  predicate Attempted(result: SafetyResult) {
    !result.Unattempted? && !result.Incomplete?
  }

  /** ready() was passed honestly: a hardware fault it saw came with an error it saw. */
  ghost predicate ReadyOk(pc: TxPc, g: GroupSafety, ready: Ready) {
    && (pc == InSafety(Attempt) || Attempted(g.result) ==> (ready.hwFault ==> ready.error))
    && (pc == InSafety(Ready3) ==> ready.hwFault && !ready.error)
    && (ready.error ==> g.errorNs != 0)
  }

  ghost predicate OneSafetyFrame(result: SafetyResult, pc: TxPc, wire: seq<Frame>) {
    && AtMostOne(wire, IsSafety)
    && (result != Succeeded && pc != InSafety(SafetyEnd(true)) ==> None(wire, IsSafety))
  }

  ghost predicate Sent(wire: seq<Frame>) {
    exists i :: 0 <= i < |wire| && IsSafety(wire[i])
  }

  /** The result says what happened: a success is one frame the bus took, a failed send one it
      refused, and anything else means that none was tried; giving up needs an order to. */
  ghost predicate Truthful(result: SafetyResult, abandoned: bool, pc: TxPc, tries: seq<bool>, wire: seq<Frame>) {
    && (match result
        case Succeeded => tries == [true] && Sent(wire)
        case SendFailed => tries == [false] && None(wire, IsSafety)
        case Processing =>
          if pc.InSafety? && pc.safety.SafetyEnd?
          then tries == [pc.safety.ok] && (if pc.safety.ok then Sent(wire) else None(wire, IsSafety))
          else tries == [] && None(wire, IsSafety)
        case _ => tries == [] && None(wire, IsSafety))
    && (result.Incomplete? || pc == InSafety(GiveUp) ==> abandoned)
  }

  ghost predicate OneLateFrame(sources: set<Source>, pc: TxPc, wire: seq<Frame>) {
    && AtMostOne(wire, IsLate)
    && (sources == {} || PastCheck(pc) ==> None(wire, IsLate))
  }

  // ----- the request stamps

  ghost predicate RequestOk(g: GroupSafety, r: Request) {
    && r.detected > 0 && r.registered > 0
    && (r.step >= 2 ==> g.detectedNs > 0) && (r.step >= 3 ==> g.registeredNs > 0)
  }

  ghost predicate StampsOk(s: State) {
    var g := s.safety;
    && s.clock > 0 && s.view.now > 0 && s.view.evaluated > 0
    && g.detectedNs >= 0 && g.registeredNs >= 0
    && (s.ctl.pc.Asking? || s.ctl.pc.Switching? ==> RequestOk(g, s.ctl.pc.request))
    && (s.pc.InSafety? && s.pc.safety.Requesting? ==> RequestOk(g, s.pc.safety.request))
    && (g.sources != {} ==> g.detectedNs > 0 && g.registeredNs > 0)
  }

  ghost predicate SafetyOk(s: State) {
    && ResultOk(s.safety.result, s.pc)
    && ReadyOk(s.pc, s.safety, s.ready)
    && OneSafetyFrame(s.safety.result, s.pc, s.wire)
    && OneLateFrame(s.safety.sources, s.pc, s.wire)
    && StampsOk(s)
  }

  // ----- each step keeps it

  /** A control step that touches neither the safety object nor a running request. */
  lemma OtherControlKeepsSafety(s: State, s': State)
    requires SafetyOk(s) && s.clock <= s'.clock
    requires s'.safety == s.safety && s'.pc == s.pc && s'.ready == s.ready && s'.view == s.view && s'.wire == s.wire
    requires s'.ctl.pc.Asking? || s'.ctl.pc.Switching? ==>
      (var r := s'.ctl.pc.request; r.step == 0 && r.detected > 0 && r.registered > 0)
    ensures SafetyOk(s')
  {
  }

  lemma ControlKeepsSafety(c: Config, s: State, ch: Choice)
    requires SafetyOk(s) && ValidChoice(c, s, ch) && |s.ctl.row.values| == c.axes * FIELDS
    ensures SafetyOk(ControlStep(c, s, ch))
  {
    if Judging(s.ctl.pc) {
      JudgeKeepsSafety(s, ch);
    } else if s.ctl.pc.Idle? {
      OtherControlKeepsSafety(s, BeginOperation(c, s, ch));
    } else if Checking(s.ctl.pc) {
      OtherControlKeepsSafety(s, CheckStep(c, s, ch));
    } else {
      OtherControlKeepsSafety(s, PublishStep(c, s, ch));
    }
  }

  lemma JudgeKeepsSafety(s: State, ch: Choice)
    requires SafetyOk(s) && s.clock <= ch.t <= ch.u && Judging(s.ctl.pc)
    ensures SafetyOk(JudgeStep(s, ch))
  {
  }

  lemma CollectKeepsSafety(c: Config, s: State, ch: Choice)
    requires SafetyOk(s) && ValidChoice(c, s, ch) && s.pc.InSafety? && Collecting(s.pc.safety)
    ensures SafetyOk(CollectStep(c, s, ch))
  {
  }

  lemma SendKeepsSafety(c: Config, s: State, ch: Choice)
    requires SafetyOk(s) && ValidChoice(c, s, ch) && s.pc.InSafety? && s.pc.safety.SafetySend?
    ensures SafetyOk(PerformStep(c, s, ch))
  {
  }

  /** The result moves forward only: the order of the loads and the exchange, without the wire. */
  lemma PerformKeepsResult(c: Config, s: State, ch: Choice)
    requires s.pc.InSafety? && !Collecting(s.pc.safety) && !s.pc.safety.SafetySend?
    requires ResultOk(s.safety.result, s.pc) && ReadyOk(s.pc, s.safety, s.ready)
    ensures var s' := PerformStep(c, s, ch);
      && ResultOk(s'.safety.result, s'.pc) && ReadyOk(s'.pc, s'.safety, s'.ready)
      && (s.safety.result == Succeeded || s.pc == InSafety(SafetyEnd(true)) ==> s'.safety.result == Succeeded)
      && !PastCheck(s'.pc) && (s'.pc.InSafety? ==> !s'.pc.safety.Requesting?)
  {
  }

  lemma QuietPerformKeepsSafety(c: Config, s: State, ch: Choice)
    requires SafetyOk(s) && ValidChoice(c, s, ch) && s.pc.InSafety?
    requires !Collecting(s.pc.safety) && !s.pc.safety.SafetySend?
    ensures SafetyOk(PerformStep(c, s, ch))
  {
    PerformKeepsResult(c, s, ch);
    PerformKeepsClock(c, s, ch);
  }

  lemma PerformKeepsClock(c: Config, s: State, ch: Choice)
    requires ValidChoice(c, s, ch) && s.pc.InSafety?
    ensures s.clock <= PerformStep(c, s, ch).clock
  {
  }

  lemma PerformKeepsSafety(c: Config, s: State, ch: Choice)
    requires SafetyOk(s) && ValidChoice(c, s, ch) && s.pc.InSafety? && !Collecting(s.pc.safety)
    ensures SafetyOk(PerformStep(c, s, ch))
  {
    if s.pc.safety.SafetySend? {
      SendKeepsSafety(c, s, ch);
    } else {
      QuietPerformKeepsSafety(c, s, ch);
    }
  }

  lemma LoopKeepsSafety(c: Config, s: State, ch: Choice)
    requires SafetyOk(s) && ValidChoice(c, s, ch) && s.pc.InLoop?
    ensures SafetyOk(LoopStep(c, s, ch))
  {
  }

  lemma FramesKeepSafety(c: Config, s: State, ch: Choice)
    requires SafetyOk(s) && ValidChoice(c, s, ch) && s.pc.InFrames? && c.timing.group
    ensures SafetyOk(FrameStep(c, s, ch))
  {
  }

  lemma TxKeepsSafety(c: Config, s: State, ch: Choice)
    requires c.timing.group && SafetyOk(s) && ValidChoice(c, s, ch)
    ensures SafetyOk(TxStep(c, s, ch))
  {
    match s.pc
    case InSafety(pc) =>
      if Collecting(pc) {
        CollectKeepsSafety(c, s, ch);
      } else {
        PerformKeepsSafety(c, s, ch);
      }
    case InLoop(_) => LoopKeepsSafety(c, s, ch);
    case InFrames(_) => FramesKeepSafety(c, s, ch);
  }

  lemma StepKeepsSafety(c: Config, s: State, s': State, who: Actor, ch: Choice)
    requires c.timing.group && SafetyOk(s) && Step(c, s, s', who, ch)
    ensures SafetyOk(s')
  {
    match who
    case ControlThread => ControlKeepsSafety(c, s, ch);
    case SendThread => TxKeepsSafety(c, s, ch);
    case Environment(e) =>
  }

  // ----- the result is the truth

  ghost predicate TruthOk(s: State) {
    Truthful(s.safety.result, s.safety.abandoned, s.pc, s.safetyTries, s.wire)
  }

  lemma ControlKeepsTruth(c: Config, s: State, ch: Choice)
    requires TruthOk(s) && |s.ctl.row.values| == c.axes * FIELDS
    ensures TruthOk(ControlStep(c, s, ch))
  {
    var s' := ControlStep(c, s, ch);
    assert s'.safety.result == s.safety.result && s'.safety.abandoned == s.safety.abandoned && s'.pc == s.pc;
  }

  lemma EnvironmentKeepsTruth(s: State, e: Event, ch: Choice)
    requires TruthOk(s)
    ensures TruthOk(EnvironmentStep(s, e, ch))
  {
  }

  /** Outside an attempt only the end of the loop and the frames of other batches come along. */
  lemma QuietKeepsTruth(s: State, s': State)
    requires TruthOk(s) && !s.safety.result.Processing? && s'.pc != InSafety(GiveUp)
    requires s'.safety.result == s.safety.result && s'.safety.abandoned == s.safety.abandoned
    requires s'.safetyTries == s.safetyTries
    requires s'.wire == s.wire || (!Finished(s.safety.result) && exists f :: !IsSafety(f) && s'.wire == s.wire + [f])
    ensures TruthOk(s')
  {
  }

  lemma CollectKeepsTruth(c: Config, s: State, ch: Choice)
    requires TruthOk(s) && ResultOk(s.safety.result, s.pc) && s.pc.InSafety? && Collecting(s.pc.safety)
    ensures TruthOk(CollectStep(c, s, ch))
  {
    var s' := CollectStep(c, s, ch);
    assert s'.pc != InSafety(GiveUp) && s'.safety.abandoned == s.safety.abandoned;
    QuietKeepsTruth(s, s');
  }

  lemma LoopKeepsTruth(c: Config, s: State, ch: Choice)
    requires TruthOk(s) && ResultOk(s.safety.result, s.pc) && s.pc.InLoop?
    ensures TruthOk(LoopStep(c, s, ch))
  {
    var s' := LoopStep(c, s, ch);
    assert s'.pc != InSafety(GiveUp);
    QuietKeepsTruth(s, s');
  }

  lemma FramesKeepTruth(c: Config, s: State, ch: Choice)
    requires TruthOk(s) && ResultOk(s.safety.result, s.pc) && s.pc.InFrames?
    ensures TruthOk(FrameStep(c, s, ch))
  {
    var s' := FrameStep(c, s, ch);
    assert s'.pc != InSafety(GiveUp);
    assert !IsSafety(NextFrame(c, s));
    assert s'.wire == s.wire || s'.wire == s.wire + [NextFrame(c, s)];
    QuietKeepsTruth(s, s');
  }

  lemma SendKeepsTruth(c: Config, s: State, ch: Choice)
    requires TruthOk(s) && ResultOk(s.safety.result, s.pc) && s.pc.InSafety? && s.pc.safety.SafetySend?
    ensures TruthOk(PerformStep(c, s, ch))
  {
    if ch.yes {
      assert IsSafety(PerformStep(c, s, ch).wire[|s.wire|]);
    }
  }

  lemma PerformKeepsTruth(c: Config, s: State, ch: Choice)
    requires TruthOk(s) && ResultOk(s.safety.result, s.pc) && s.pc.InSafety? && !Collecting(s.pc.safety)
    ensures TruthOk(PerformStep(c, s, ch))
  {
    if s.pc.safety.SafetySend? {
      SendKeepsTruth(c, s, ch);
    }
  }

  lemma TxKeepsTruth(c: Config, s: State, ch: Choice)
    requires TruthOk(s) && ResultOk(s.safety.result, s.pc)
    ensures TruthOk(TxStep(c, s, ch))
  {
    match s.pc
    case InSafety(pc) =>
      if Collecting(pc) {
        CollectKeepsTruth(c, s, ch);
      } else {
        PerformKeepsTruth(c, s, ch);
      }
    case InLoop(_) => LoopKeepsTruth(c, s, ch);
    case InFrames(_) => FramesKeepTruth(c, s, ch);
  }
}
