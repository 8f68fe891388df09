/** What holds over every run of the command path: the invariants put together and read off. */
module CommandRuns {
  import opened PairCommits
  import opened WriteSchedules
  import opened Packets
  import opened CommandPath
  import opened CommandDelivery
  import opened SafetyProtocol
  import opened SendTiming
  import opened RepeatCounts

  /** Outside pair mode the safety part of the loop is never entered. */
  predicate PlainOk(c: Config, pc: TxPc) {
    !c.timing.group && pc.InSafety? ==> pc.safety.Top? || pc.safety.Fault? || pc.safety.Done?
  }

  ghost predicate Inv(c: Config, s: State) {
    && ValidConfig(c) && Delivery(c, s) && TimingOk(c.timing, s) && WayToSleep(c, s)
    && PlainOk(c, s.pc) && Counted(c.timing, s) && (c.timing.group ==> SafetyOk(s) && TruthOk(s))
  }

  lemma InitialSafety(c: Config, s: State)
    requires Initial(c, s)
    ensures SafetyOk(s) && TruthOk(s)
  {
  }

  lemma InitialTiming(c: Config, s: State)
    requires Initial(c, s)
    ensures TimingOk(c.timing, s) && WayToSleep(c, s) && PlainOk(c, s.pc) && Counted(c.timing, s)
  {
  }

  lemma InitialInv(c: Config, s: State)
    requires ValidConfig(c) && Initial(c, s)
    ensures Inv(c, s)
  {
    InitialDelivery(c, s);
    InitialSafety(c, s);
    InitialTiming(c, s);
  }

  lemma ControlKeepsClocks(c: Config, s: State, ch: Choice)
    requires ValidChoice(c, s, ch) && |s.ctl.row.values| == c.axes * FIELDS
    ensures s.clock <= ControlStep(c, s, ch).clock
  {
  }

  lemma TxKeepsPlain(c: Config, s: State, ch: Choice)
    requires PlainOk(c, s.pc)
    ensures PlainOk(c, TxStep(c, s, ch).pc)
  {
  }

  lemma TxKeepsInv(c: Config, s: State, ch: Choice)
    requires Inv(c, s) && ValidChoice(c, s, ch)
    ensures Inv(c, TxStep(c, s, ch))
  {
    TxKeepsDelivery(c, s, ch);
    TxKeepsTiming(c, s, ch);
    TxKeepsWay(c, s, ch);
    TxKeepsPlain(c, s, ch);
    TxKeepsCount(c, s, ch);
    if c.timing.group {
      TxKeepsSafety(c, s, ch);
      TxKeepsTruth(c, s, ch);
    }
  }

  lemma EnvironmentKeepsReplies(c: Config, s: State, e: Event, ch: Choice)
    requires ValidChoice(c, s, ch) && RepliesOk(c.axes, s.rx, s.clock, s.pc, s.view)
    ensures var s' := EnvironmentStep(s, e, ch); RepliesOk(c.axes, s'.rx, s'.clock, s'.pc, s'.view)
  {
  }

  lemma OthersKeepClocks(c: Config, s: State, s': State)
    requires TimingOk(c.timing, s) && WayToSleep(c, s) && PlainOk(c, s.pc) && s.clock <= s'.clock
    requires RepliesOk(c.axes, s'.rx, s'.clock, s'.pc, s'.view)
    requires s'.pc == s.pc && s'.local == s.local && s'.view == s.view && s'.job == s.job && s'.resends == s.resends
    requires s'.wire == s.wire
    ensures TimingOk(c.timing, s') && WayToSleep(c, s') && PlainOk(c, s'.pc)
    ensures Counted(c.timing, s) ==> Counted(c.timing, s')
  {
  }

  lemma ControlKeepsInv(c: Config, s: State, ch: Choice)
    requires Inv(c, s) && ValidChoice(c, s, ch)
    ensures Inv(c, ControlStep(c, s, ch))
  {
    ControlKeepsDelivery(c, s, ch);
    if c.timing.group {
      ControlKeepsSafety(c, s, ch);
      ControlKeepsTruth(c, s, ch);
    }
    ControlLeavesTx(c, s, ch);
    ControlKeepsClocks(c, s, ch);
    OthersKeepClocks(c, s, ControlStep(c, s, ch));
  }

  lemma EnvironmentKeepsInv(c: Config, s: State, e: Event, ch: Choice)
    requires Inv(c, s) && ValidChoice(c, s, ch)
    ensures Inv(c, EnvironmentStep(s, e, ch))
  {
    var s' := EnvironmentStep(s, e, ch);
    assert Step(c, s, s', Environment(e), ch);
    StepKeepsDelivery(c, s, s', Environment(e), ch);
    if c.timing.group {
      StepKeepsSafety(c, s, s', Environment(e), ch);
      EnvironmentKeepsTruth(s, e, ch);
    }
    EnvironmentKeepsReplies(c, s, e, ch);
    OthersKeepClocks(c, s, s');
  }

  lemma StepKeepsInv(c: Config, s: State, s': State, who: Actor, ch: Choice)
    requires Inv(c, s) && Step(c, s, s', who, ch)
    ensures Inv(c, s')
  {
    match who
    case ControlThread => ControlKeepsInv(c, s, ch);
    case SendThread => TxKeepsInv(c, s, ch);
    case Environment(e) => EnvironmentKeepsInv(c, s, e, ch);
  }

  lemma NextKeepsInv(c: Config, s: State, s': State)
    requires Inv(c, s) && Next(c, s, s')
    ensures Inv(c, s')
  {
    var who, ch :| Step(c, s, s', who, ch);
    StepKeepsInv(c, s, s', who, ch);
  }

  ghost predicate Steps(c: Config, run: seq<State>) {
    ValidConfig(c) && forall i: nat | i + 1 < |run| :: StepAt(c, run, i)
  }

  lemma OneStepKeepsInv(c: Config, run: seq<State>, i: nat)
    requires Steps(c, run) && i + 1 < |run| && Inv(c, run[i])
    ensures Inv(c, run[i + 1])
  {
    assert StepAt(c, run, i);
    NextKeepsInv(c, run[i], run[i + 1]);
  }

  lemma {:induction false} StepsKeepInv(c: Config, run: seq<State>, i: nat)
    requires i < |run| && Steps(c, run) && Inv(c, run[0])
    ensures Inv(c, run[i])
  {
    if i > 0 {
      StepsKeepInv(c, run, i - 1);
      OneStepKeepsInv(c, run, i - 1);
    }
  }

  lemma RunKeepsInv(c: Config, run: seq<State>, i: nat)
    requires IsRun(c, run) && i < |run|
    ensures Inv(c, run[i])
  {
    InitialInv(c, run[0]);
    StepsKeepInv(c, run, i);
  }

  lemma RunDelivers(c: Config, run: seq<State>, i: nat)
    requires IsRun(c, run) && i < |run|
    ensures ValidConfig(c) && Delivery(c, run[i])
  {
    RunKeepsInv(c, run, i);
  }

  lemma RunIsTimed(c: Config, run: seq<State>, i: nat)
    requires IsRun(c, run) && i < |run|
    ensures ValidTiming(c.timing) && TimingOk(c.timing, run[i]) && Counted(c.timing, run[i])
  {
    RunKeepsInv(c, run, i);
  }

  // ----- delivery

  /** Every control frame on the bus is zero-gain, or exactly the commands of one accepted batch;
      and the generations of the latter never go down. */
  lemma EveryFrameIsReleasedOrOneAcceptedBatch(c: Config, run: seq<State>, i: nat, k: nat, l: nat)
    requires IsRun(c, run) && c.timing.group && i < |run| && k <= l < |run[i].wire|
    ensures var s, f := run[i], run[i].wire[k];
      if f.kind.Normal? then
        && 1 <= f.kind.generation <= |s.accepted|
        && s.accepted[f.kind.generation - 1].adopted.generation == f.kind.generation
        && f.commands == Commands(s.accepted[f.kind.generation - 1].batch)
      else AllZeroGain(f.commands)
    ensures run[i].wire[k].kind.Normal? && run[i].wire[l].kind.Normal? ==>
      run[i].wire[k].kind.generation <= run[i].wire[l].kind.generation
  {
    RunDelivers(c, run, i);
    var s := run[i];
    assert FrameOk(s.accepted, s.wire[k]);
    if s.wire[k].kind.Normal? {
      var g := s.wire[k].kind.generation;
      assert AdoptedOk(c.bounds, Adoptions(s.accepted)[g - 1], g - 1);
    }
  }

  /** The accepted batches are generations 1, 2, ... in bounds, the first and every latched one
      released, the first before the deadline; every published batch is one of them. */
  lemma AcceptedBatchesAreConsecutive(c: Config, run: seq<State>, i: nat, k: nat)
    requires IsRun(c, run) && c.timing.group && i < |run| && k < |run[i].accepted|
    ensures |run[i].accepted[k].adopted.values| == c.axes * FIELDS
    ensures var s, a := run[i], run[i].accepted[k].adopted;
      && a.generation == k + 1 && s.ctl.commit.last == |s.accepted|
      && InBounds(c.bounds, a.values)
      && (k == 0 || a.latched ==> PairCommits.Released(a.values))
      && s.accepted[0].adopted.now < s.ctl.commit.deadline
      && (a.latched ==> s.ctl.commit.latched)
      && s.accepted[k].batch == BatchOf(a.values, c.axes, k + 1, a.now)
    ensures forall p | 0 <= p < |run[i].published| :: FromLog(c, run[i].published[p], run[i].accepted)
  {
    RunDelivers(c, run, i);
    assert AdoptedOk(c.bounds, Adoptions(run[i].accepted)[k], k);
    assert Adoptions(run[i].accepted)[0] == run[i].accepted[0].adopted;
  }

  /** Passing the send-boundary check in any mode: the cached batch is the newest begun. */
  lemma BoundaryCheckInEveryRun(c: Config, run: seq<State>, i: nat)
    requires IsRun(c, run) && i < |run| && run[i].pc == InFrames(FrameVersion) && run[i].job.sent == 0
    requires Fresh(run[i]) && run[i].memory.version == run[i].box.observed
    ensures run[i].box.cached == |run[i].published| > 0 && run[i].memory.writer.Resting?
    ensures run[i].box.cache == run[i].published[|run[i].published| - 1]
    ensures run[i].memory.words == Words(run[i].box.cache)
  {
    RunDelivers(c, run, i);
    BoundaryCheckMeansNewest(c, run[i]);
  }

  // ----- group safety

  /** One safety frame at most, one normal frame at most after a request has become visible, no
      attempt after a ready check that saw a hardware fault and not its error, and stamps set before
      the request shows. The final result is what happened on the bus. */
  lemma SafetyBroadcastIsOneShot(c: Config, run: seq<State>, i: nat)
    requires IsRun(c, run) && c.timing.group && i < |run|
    ensures AtMostOne(run[i].wire, IsSafety) && AtMostOne(run[i].wire, IsLate)
    ensures Attempted(run[i].safety.result) && run[i].ready.hwFault ==> run[i].ready.error && run[i].safety.errorNs != 0
    ensures run[i].safety.sources != {} ==> run[i].safety.detectedNs > 0 && run[i].safety.registeredNs > 0
    ensures (exists k :: 0 <= k < |run[i].wire| && IsSafety(run[i].wire[k])) ==> Attempted(run[i].safety.result)
    ensures run[i].safety.result == Succeeded ==> Sent(run[i].wire) && run[i].safetyTries == [true]
    ensures run[i].safety.result == SendFailed ==> None(run[i].wire, IsSafety) && run[i].safetyTries == [false]
    ensures run[i].safety.result == CannotGenerate ==> None(run[i].wire, IsSafety) && run[i].safetyTries == []
    ensures run[i].safety.result == Incomplete ==> run[i].safety.abandoned && run[i].safetyTries == []
  {
    RunKeepsInv(c, run, i);
  }

  // ----- what never goes back

  ghost predicate Advances(s: State, s': State) {
    var g, g' := s.safety, s'.safety;
    && s.clock <= s'.clock
    && s.accepted <= s'.accepted && s.published <= s'.published && s.wire <= s'.wire
    && (s.ctl.commit.latched ==> s'.ctl.commit.latched)
    && g.sources <= g'.sources && (g.feedbackStopped ==> g'.feedbackStopped)
    && (Finished(g.result) ==> g'.result == g.result)
    && (g.detectedNs != 0 ==> g'.detectedNs == g.detectedNs)
    && (g.registeredNs != 0 ==> g'.registeredNs == g.registeredNs)
    && (g.errorNs != 0 ==> g'.errorNs == g.errorNs)
  }

  lemma CheckAdvances(c: Config, s: State, ch: Choice)
    requires ValidChoice(c, s, ch) && |s.ctl.row.values| == c.axes * FIELDS && Checking(s.ctl.pc)
    ensures Advances(s, CheckStep(c, s, ch))
  {
    var row := s.ctl.row;
    InspectDecides(c.bounds, s.ctl.commit, row.generation, row.values, row.startNs);
    InspectDecides(c.bounds, s.ctl.commit, row.generation, row.values, row.stampNs);
  }

  lemma ControlAdvances(c: Config, s: State, ch: Choice)
    requires ValidChoice(c, s, ch) && |s.ctl.row.values| == c.axes * FIELDS
    ensures Advances(s, ControlStep(c, s, ch))
  {
    if Checking(s.ctl.pc) {
      CheckAdvances(c, s, ch);
    } else if Judging(s.ctl.pc) {
      assert Advances(s, JudgeStep(s, ch));
    } else if s.ctl.pc.Idle? {
      assert Advances(s, BeginOperation(c, s, ch));
    } else {
      assert Advances(s, PublishStep(c, s, ch));
    }
  }

  lemma TxAdvances(c: Config, s: State, ch: Choice)
    requires ValidChoice(c, s, ch) && ResultOk(s.safety.result, s.pc)
    ensures Advances(s, TxStep(c, s, ch))
  {
    match s.pc
    case InSafety(pc) =>
      if Collecting(pc) {
        assert Advances(s, CollectStep(c, s, ch));
      } else {
        assert Advances(s, PerformStep(c, s, ch));
      }
    case InLoop(_) => assert Advances(s, LoopStep(c, s, ch));
    case InFrames(_) => assert Advances(s, FrameStep(c, s, ch));
  }

  lemma EnvironmentAdvances(c: Config, s: State, e: Event, ch: Choice)
    requires ValidChoice(c, s, ch)
    ensures Advances(s, EnvironmentStep(s, e, ch))
  {
  }

  lemma StepAdvances(c: Config, s: State, s': State, who: Actor, ch: Choice)
    requires ResultOk(s.safety.result, s.pc) && Step(c, s, s', who, ch)
    ensures Advances(s, s')
  {
    match who
    case ControlThread => ControlAdvances(c, s, ch);
    case SendThread => TxAdvances(c, s, ch);
    case Environment(e) => EnvironmentAdvances(c, s, e, ch);
  }

  lemma NextAdvances(c: Config, s: State, s': State)
    requires ResultOk(s.safety.result, s.pc) && Next(c, s, s')
    ensures Advances(s, s')
  {
    var who, ch :| Step(c, s, s', who, ch);
    StepAdvances(c, s, s', who, ch);
  }

  lemma AdvancesTwice(s: State, s': State, s'': State)
    requires Advances(s, s') && Advances(s', s'')
    ensures Advances(s, s'')
  {
  }

  lemma RunAdvances(c: Config, run: seq<State>, i: nat)
    requires IsRun(c, run) && c.timing.group && i + 1 < |run|
    ensures Advances(run[i], run[i + 1])
  {
    RunKeepsInv(c, run, i);
    assert StepAt(c, run, i);
    NextAdvances(c, run[i], run[i + 1]);
  }

  /** Nothing on the logs is ever rewritten, and a latch, a request, a first time stamp or a final
      result, once there, stays. */
  lemma {:induction false} HistoryNeverGoesBack(c: Config, run: seq<State>, i: nat, j: nat)
    requires IsRun(c, run) && c.timing.group && i <= j < |run|
    ensures Advances(run[i], run[j])
    decreases j
  {
    if i < j {
      HistoryNeverGoesBack(c, run, i, j - 1);
      RunAdvances(c, run, j - 1);
      AdvancesTwice(run[i], run[j - 1], run[j]);
    }
  }

  // ----- after the feedback stop

  /** Between two writes, with the stop latch up: nothing new can be admitted. */
  ghost predicate Frozen(s0: State, s: State) {
    && s.safety.feedbackStopped && s.accepted == s0.accepted && s.published == s0.published
    && (HwFault in s.safety.sources <==> HwFault in s0.safety.sources)
    && NoHwRequest(s.pc)
    && (match s.ctl.pc
        case Idle => true
        case Check1 => true
        case Judge => s.ctl.reason == FeedbackPending
        case Switching(r) => r.source != HwFault
        case _ => false)
  }

  lemma ControlStaysFrozen(c: Config, s0: State, s: State, ch: Choice)
    requires c.timing.group && |s.ctl.row.values| == c.axes * FIELDS && Frozen(s0, s)
    ensures Frozen(s0, ControlStep(c, s, ch))
  {
  }

  lemma TxStaysFrozen(c: Config, s0: State, s: State, ch: Choice)
    requires Frozen(s0, s)
    ensures Frozen(s0, TxStep(c, s, ch))
  {
    match s.pc
    case InSafety(pc) =>
      if Collecting(pc) {
        assert Frozen(s0, CollectStep(c, s, ch));
      } else {
        assert Frozen(s0, PerformStep(c, s, ch));
      }
    case InLoop(_) => assert Frozen(s0, LoopStep(c, s, ch));
    case InFrames(_) => assert Frozen(s0, FrameStep(c, s, ch));
  }

  lemma NextStaysFrozen(c: Config, s0: State, s: State, s': State)
    requires c.timing.group && Frozen(s0, s) && Next(c, s, s')
    ensures Frozen(s0, s')
  {
    var who, ch :| Step(c, s, s', who, ch);
    match who
    case ControlThread => ControlStaysFrozen(c, s0, s, ch);
    case SendThread => TxStaysFrozen(c, s0, s, ch);
    case Environment(e) =>
  }

  predicate NoHwRequest(pc: TxPc) {
    pc.InSafety? && pc.safety.Requesting? ==> pc.safety.request.source != HwFault
  }

  lemma TxKeepsRequests(c: Config, s: State, ch: Choice)
    requires NoHwRequest(s.pc)
    ensures NoHwRequest(TxStep(c, s, ch).pc)
  {
  }

  lemma NextKeepsRequests(c: Config, s: State, s': State)
    requires NoHwRequest(s.pc) && Next(c, s, s')
    ensures NoHwRequest(s'.pc)
  {
    var who, ch :| Step(c, s, s', who, ch);
    match who
    case ControlThread => ControlLeavesTx(c, s, ch);
    case SendThread => TxKeepsRequests(c, s, ch);
    case Environment(_) =>
  }

  /** Hardware faults are registered by the control thread only. */
  lemma {:induction false} SendThreadNeverReportsHwFault(c: Config, run: seq<State>, i: nat)
    requires IsRun(c, run) && i < |run|
    ensures NoHwRequest(run[i].pc)
  {
    if i > 0 {
      SendThreadNeverReportsHwFault(c, run, i - 1);
      assert StepAt(c, run, i - 1);
      NextKeepsRequests(c, run[i - 1], run[i]);
    }
  }

  lemma ControlAdmitsNothing(c: Config, s: State, ch: Choice)
    requires s.safety.feedbackStopped && |s.ctl.row.values| == c.axes * FIELDS
    ensures var s' := ControlStep(c, s, ch); s'.accepted == s.accepted && s'.safety.feedbackStopped
  {
  }

  lemma StoppedAdmitsNothing(c: Config, s: State, s': State)
    requires s.safety.feedbackStopped && Next(c, s, s')
    ensures s'.accepted == s.accepted && s'.safety.feedbackStopped
  {
    var who, ch :| Step(c, s, s', who, ch);
    match who
    case ControlThread => ControlAdmitsNothing(c, s, ch);
    case SendThread => TxLeavesControl(c, s, ch); TxKeepsStop(c, s, ch);
    case Environment(_) =>
  }

  lemma TxKeepsStop(c: Config, s: State, ch: Choice)
    requires s.safety.feedbackStopped
    ensures TxStep(c, s, ch).safety.feedbackStopped
  {
  }

  /** Once the stop latch is up no batch is accepted any more, not even by a write in flight. Once no
      write is in flight either, nothing is published any more, and no hardware fault is registered
      that was not there before. */
  lemma {:induction false} FeedbackStopAdmitsNothing(c: Config, run: seq<State>, i: nat, j: nat)
    requires IsRun(c, run) && c.timing.group && i <= j < |run| && run[i].safety.feedbackStopped
    ensures run[j].accepted == run[i].accepted && run[j].safety.feedbackStopped
    ensures run[i].ctl.pc.Idle? ==> Frozen(run[i], run[j])
    decreases j
  {
    if i == j {
      SendThreadNeverReportsHwFault(c, run, i);
    } else {
      FeedbackStopAdmitsNothing(c, run, i, j - 1);
      assert StepAt(c, run, j - 1);
      StoppedAdmitsNothing(c, run[j - 1], run[j]);
      if run[i].ctl.pc.Idle? {
        NextStaysFrozen(c, run[i], run[j - 1], run[j]);
      }
    }
  }

  // ----- timing, in either mode

  /** Batches start at least half a period apart, no command leaves at or past its maximum age, and
      publication g is repeated k times on the wire only if k periods plus the grace time stay below
      that age. */
  lemma SendTimesAreBounded(c: Config, run: seq<State>, i: nat, g: nat)
    requires IsRun(c, run) && i < |run|
    ensures forall k, l | 0 <= k < l < |run[i].wire| :: IsStart(run[i].wire[k]) && IsStart(run[i].wire[l]) ==>
      run[i].wire[l].at >= run[i].wire[k].at + c.timing.period / 2
    ensures forall k | 0 <= k < |run[i].wire| :: run[i].wire[k].kind.Normal? ==>
      run[i].wire[k].at < run[i].wire[k].publishedNs + c.timing.maxCommandAge
    ensures var k := Repeats(run[i].wire, g); k > 0 ==> k * c.timing.period + c.timing.grace < c.timing.maxCommandAge
  {
    RunIsTimed(c, run, i);
    RepeatCounts.AllFit(c.timing, run[i], g);
  }

  /** Whenever the loop goes to sleep, in every run and whatever replies the receive thread stamps
      between any two of the loop's loads or later: nothing due before the timer is overlooked. In
      plain mode a stamp read before the first send and stored only after its load is the one
      exception, exactly if it falls due before the timer. */
  lemma NoDeadlineIsMissed(c: Config, run: seq<State>, i: nat, clock: int, stamps: seq<int>)
    requires IsRun(c, run) && i < |run| && run[i].pc == InLoop(Sleep) && run[i].clock <= clock
    requires Raised(run[i].view.seen.received, stamps)
    ensures Raised(run[i].view.seen.received, run[i].rx.stamps)
    ensures var t, l, seen, now := c.timing, run[i].local, run[i].view.seen, run[i].view.now;
      MissesNothing(t, l, seen, stamps, now, clock) <==>
      t.group || forall a | 0 <= a < |stamps| :: Overtaken(l, seen.received, stamps, now, a) ==>
        Timer(t, l, seen, now, clock) <= Max(Max(now, stamps[a] + t.maxFeedbackAge), clock + 1)
  {
    RunKeepsInv(c, run, i);
    AsleepIsQuiet(c, run[i]);
    SleepMissesNothing(c.timing, run[i].local, run[i].view.seen, stamps, run[i].view.now, clock);
  }
}
