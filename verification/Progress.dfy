/**
 What the control thread of CommandPath must do while the other threads leave it alone: an admissible
 write is accepted and published, any other is judged by the reason it deserves, and an abnormal write
 and a mode stop are reported.
 */
module Progress {
  import opened PairCommits
  import opened Seqlock
  import opened Packets
  import opened CommandPath

  type Choices = nat -> Choice

  /** Step i of a stretch in which only the control thread runs. */
  predicate ControlStepOf(c: Config, run: seq<State>, pick: Choices, i: nat)
    requires i + 1 < |run|
  {
    |run[i].ctl.row.values| == c.axes * FIELDS && run[i + 1] == ControlStep(c, run[i], pick(i))
  }

  ghost predicate ControlAlone(c: Config, run: seq<State>, pick: Choices) {
    forall i: nat | i + 1 < |run| :: ControlStepOf(c, run, pick, i)
  }

  // ----- writePair

  /** A write that PairCommit must let through, at its start and at its second inspection. */
  ghost predicate Welcome(c: Config, s: State, ch: Choice, stamp: int) {
    && c.timing.group && s.ctl.pc.Idle? && s.ctl.claimed && !s.safety.feedbackStopped
    && ch.operation.Write? && |ch.values| == c.axes * FIELDS
    && Admissible(c.bounds, s.ctl.commit, ch.generation, ch.values, ch.t)
    && Admissible(c.bounds, s.ctl.commit, ch.generation, ch.values, stamp)
  }

  /** The batch that write stands for. */
  function BatchFor(c: Config, s: State, ch: Choice, stamp: int): Batch
    requires |ch.values| == c.axes * FIELDS
  {
    BatchOf(ch.values, c.axes, s.ctl.commit.last + 1, stamp)
  }

  /** The first inspection and the look at the latch behind it. */
  lemma FirstInspectionPasses(c: Config, run: seq<State>, pick: Choices, k: nat)
    requires ControlAlone(c, run, pick) && k + 3 < |run| && Welcome(c, run[k], pick(k), pick(k).t)
    ensures var s, ch := run[k], pick(k);
      run[k + 3] ==
      s.(clock := ch.t,
         ctl := s.ctl.(row := s.ctl.row.(generation := ch.generation, values := ch.values, startNs := ch.t),
                       reason := Accepted, pc := Stamp))
  {
    InspectDecides(c.bounds, run[k].ctl.commit, pick(k).generation, pick(k).values, pick(k).t);
    assert ControlStepOf(c, run, pick, k);
    assert ControlStepOf(c, run, pick, k + 1);
    assert ControlStepOf(c, run, pick, k + 2);
  }

  /** The stamp, the second inspection and the acceptance. */
  lemma SecondInspectionPasses(c: Config, run: seq<State>, pick: Choices, k: nat)
    requires ControlAlone(c, run, pick) && k + 3 < |run| && run[k].ctl.pc.Stamp?
    requires run[k].ctl.claimed && !run[k].safety.feedbackStopped && |run[k].ctl.row.values| == c.axes * FIELDS
    requires Admissible(c.bounds, run[k].ctl.commit, run[k].ctl.row.generation, run[k].ctl.row.values, pick(k).t)
    ensures var s, stamp := run[k], pick(k).t;
      var next := s.ctl.commit.last + 1;
      var batch := BatchOf(s.ctl.row.values, c.axes, next, stamp);
      run[k + 3] ==
      s.(clock := stamp,
         ctl := s.ctl.(row := s.ctl.row.(stampNs := stamp, outgoing := batch),
                       commit := s.ctl.commit.(last := next), reason := Accepted, pc := AskArmed),
         accepted := s.accepted +
                     [Admission(Adopted(next, s.ctl.row.values, stamp, s.ctl.commit.latched), batch)])
  {
    InspectDecides(c.bounds, run[k].ctl.commit, run[k].ctl.row.generation, run[k].ctl.row.values, pick(k).t);
    assert ControlStepOf(c, run, pick, k);
    assert ControlStepOf(c, run, pick, k + 1);
    assert ControlStepOf(c, run, pick, k + 2);
  }

  /** An admissible write is accepted, with the number after the last and the very values. */
  lemma AdmissibleIsAccepted(c: Config, run: seq<State>, pick: Choices, k: nat)
    requires ControlAlone(c, run, pick) && k + 6 < |run| && Welcome(c, run[k], pick(k), pick(k + 3).t)
    ensures var s, s', ch, stamp := run[k], run[k + 6], pick(k), pick(k + 3).t;
      && s' == s.(clock := stamp, ctl := s'.ctl, accepted := s'.accepted)
      && s'.accepted == s.accepted +
         [Admission(Adopted(s.ctl.commit.last + 1, ch.values, stamp, s.ctl.commit.latched), BatchFor(c, s, ch, stamp))]
      && s'.ctl.commit == s.ctl.commit.(last := s.ctl.commit.last + 1) && s'.ctl.pc.AskArmed?
      && s'.ctl.row.outgoing == BatchFor(c, s, ch, stamp)
  {
    FirstInspectionPasses(c, run, pick, k);
    SecondInspectionPasses(c, run, pick, k + 3);
  }

  /** What a write that is not accepted finds: the stop latch, no claim, or the reason deserved. */
  lemma RejectionIsDeserved(c: Config, s: State, ch: Choice)
    requires c.timing.group && s.ctl.pc.Idle? && ch.operation.Write?
    requires |ch.values| == c.axes * FIELDS == |s.ctl.row.values|
    ensures var s1 := ControlStep(c, s, ch);
      var s2 := ControlStep(c, s1, ch);
      if s.safety.feedbackStopped then
        s2.ctl.reason == FeedbackPending && s2.ctl.pc.Judge? && s2.ctl.commit == s.ctl.commit
      else if !s.ctl.claimed then s2.ctl.reason == NotClaimed && s2.ctl.pc.Judge? && s2.ctl.commit == s.ctl.commit
      else
        && Deserved(c.bounds, s.ctl.commit, ch.generation, ch.values, ch.t, s2.ctl.reason)
        && (s2.ctl.pc.Judge? <==> s2.ctl.reason != Accepted)
        && (s2.ctl.commit.latched <==>
              s.ctl.commit.latched || Raises(c.bounds, s.ctl.commit, ch.generation, ch.values, ch.t))
  {
    var reason := Inspection(c.bounds, s.ctl.commit, ch.generation, ch.values, ch.t).1;
    InspectAnswers(c.bounds, s.ctl.commit, ch.generation, ch.values, ch.t, reason);
  }

  // ----- publication

  /** With the stream armed, running and not stopped, an accepted batch is handed to the snapshot. */
  lemma AcceptedIsHandedOver(c: Config, run: seq<State>, pick: Choices, k: nat)
    requires ControlAlone(c, run, pick) && k + 4 < |run| && run[k].ctl.pc.AskArmed?
    requires run[k].flags.armed != 0 && run[k].flags.running && !run[k].flags.stopAll
    ensures var s := run[k];
      run[k + 4] ==
      s.(memory := Begin(s.memory, Words(s.ctl.row.outgoing)), published := s.published + [s.ctl.row.outgoing],
         ctl := s.ctl.(pc := PublishStore))
  {
    assert ControlStepOf(c, run, pick, k);
    assert run[k + 1] == run[k].(ctl := run[k].ctl.(pc := AskRunning));
    assert ControlStepOf(c, run, pick, k + 1);
    assert run[k + 2] == run[k].(ctl := run[k].ctl.(pc := AskStopAll));
    assert ControlStepOf(c, run, pick, k + 2);
    assert run[k + 3] == run[k].(ctl := run[k].ctl.(pc := PublishBegin));
    assert ControlStepOf(c, run, pick, k + 3);
  }

  /** Otherwise it is a failed publication, which latches in pair mode. */
  lemma RefusedHandOverLatches(c: Config, s: State, ch: Choice)
    requires c.timing.group
    requires (s.ctl.pc.AskArmed? && s.flags.armed == 0) || (s.ctl.pc.AskRunning? && !s.flags.running) ||
      (s.ctl.pc.AskStopAll? && s.flags.stopAll) || (s.ctl.pc.AskNotified? && s.flags.notifyFailed)
    ensures var s' := PublishStep(c, s, ch);
      s'.ctl.reason == PublishFailed && s'.ctl.commit.latched && s'.ctl.pc.Judge? && s'.published == s.published
  {
  }

  lemma {:induction false} WordsAreStored(c: Config, run: seq<State>, pick: Choices, k: nat, n: nat)
    requires ControlAlone(c, run, pick) && k + n < |run| && run[k].ctl.pc.PublishStore?
    requires MemoryOk(run[k].memory) && run[k].memory.writer == Storing(0) && n <= |run[k].memory.words|
    ensures var m, m' := run[k].memory, run[k + n].memory;
      && run[k + n] == run[k].(memory := m') && MemoryOk(m') && m'.writer == Storing(n)
      && m'.begun == m.begun && m'.version == m.version && |m'.words| == |m.words|
  {
    if n > 0 {
      WordsAreStored(c, run, pick, k, n - 1);
      WriterKeepsMemory(run[k + n - 1].memory, []);
      assert ControlStepOf(c, run, pick, k + n - 1);
    }
  }

  /** Left alone, the snapshot is complete after one store a word and one more. */
  lemma PublicationCompletes(c: Config, run: seq<State>, pick: Choices, k: nat)
    requires ControlAlone(c, run, pick) && k < |run| && k + |run[k].memory.words| + 1 < |run|
    requires run[k].ctl.pc.PublishStore? && MemoryOk(run[k].memory) && run[k].memory.writer == Storing(0)
    ensures var m, s' := run[k].memory, run[k + |run[k].memory.words| + 1];
      s' == run[k].(memory := Memory(m.version + 1, m.begun[|m.begun| - 1], Resting, m.begun),
                    ctl := run[k].ctl.(pc := Notify))
  {
    var n := |run[k].memory.words|;
    WordsAreStored(c, run, pick, k, n);
    WriterKeepsMemory(run[k + n].memory, []);
    assert ControlStepOf(c, run, pick, k + n);
  }

  /** From the idle thread to the complete snapshot: an admissible write on a stream that takes
      commands is published as it was given. */
  lemma WriteIsPublished(c: Config, run: seq<State>, pick: Choices, k: nat)
    requires ValidConfig(c) && ControlAlone(c, run, pick) && k < |run| && k + |run[k].memory.words| + 11 < |run|
    requires Welcome(c, run[k], pick(k), pick(k + 3).t)
    requires run[k].flags.armed != 0 && run[k].flags.running && !run[k].flags.stopAll
    requires MemoryOk(run[k].memory) && run[k].memory.writer.Resting? && |run[k].memory.words| == WORDS * c.axes
    ensures var s, s' := run[k], run[k + |run[k].memory.words| + 11];
      var batch := BatchFor(c, s, pick(k), pick(k + 3).t);
      && s' == s.(clock := s'.clock, memory := s'.memory, ctl := s'.ctl, accepted := s'.accepted,
                  published := s'.published)
      && s'.memory.words == Words(batch) && s'.memory.version == s.memory.version + 2 && s'.memory.writer.Resting?
      && s'.published == s.published + [batch]
  {
    var n := |run[k].memory.words|;
    AdmissibleIsAccepted(c, run, pick, k);
    AcceptedIsHandedOver(c, run, pick, k + 6);
    WriterKeepsMemory(run[k].memory, Words(run[k + 6].ctl.row.outgoing));
    PublicationCompletes(c, run, pick, k + 10);
  }

  // ----- what is reported

  /** An abnormal write: what is rejected as faulty or late, or could not be published. */
  predicate MustReport(r: Reason) {
    r in {InvalidGeneration, Rollback, Gap, InvalidBatch, LatchedNonzero, StartupExpired, PublishFailed}
  }

  /** The safety object after the four steps of one request. */
  function Registered(g: GroupSafety, r: Request): GroupSafety {
    g.(requests := g.requests + 1, sources := g.sources + {r.source},
       detectedNs := if g.detectedNs == 0 then r.detected else g.detectedNs,
       registeredNs := if g.registeredNs == 0 then r.registered else g.registeredNs)
  }

  lemma RequestRegisters(g: GroupSafety, r: Request)
    ensures RequestStep(RequestStep(RequestStep(RequestStep(g, r.(step := 0)), r.(step := 1)), r.(step := 2)),
                        r.(step := 3)) == Registered(g, r)
  {
  }

  lemma AskingRegisters(s: State, ch: Choice, r: Request)
    requires s.ctl.pc == Asking(r) && r.step == 0
    ensures JudgeStep(JudgeStep(JudgeStep(JudgeStep(s, ch), ch), ch), ch) ==
      s.(safety := Registered(s.safety, r), ctl := s.ctl.(pc := Idle))
  {
    RequestRegisters(s.safety, r);
  }

  lemma SwitchingRegisters(s: State, ch: Choice, r: Request)
    requires s.ctl.pc == Switching(r) && r.step == 0
    ensures JudgeStep(JudgeStep(JudgeStep(JudgeStep(s, ch), ch), ch), ch) ==
      s.(safety := Registered(s.safety, r),
         ctl := s.ctl.(claimed := false, terminal := true, commit := s.ctl.commit.(latched := true), pc := Idle))
  {
    RequestRegisters(s.safety, r);
  }

  /** After the verdict an abnormal write goes on to register a hardware fault, any other registers
      nothing. */
  lemma AbnormalIsReported(s: State, ch: Choice)
    requires s.ctl.pc.Judge?
    ensures var s1 := JudgeStep(s, ch);
      if MustReport(s.ctl.reason) then
        JudgeStep(JudgeStep(JudgeStep(JudgeStep(s1, ch), ch), ch), ch) ==
        s.(clock := ch.u, safety := Registered(s.safety, Request(HwFault, ch.t, ch.u, 0)), ctl := s.ctl.(pc := Idle))
      else s1 == s.(ctl := s.ctl.(pc := Idle))
  {
    if MustReport(s.ctl.reason) {
      AskingRegisters(JudgeStep(s, ch), ch, Request(HwFault, ch.t, ch.u, 0));
    }
  }

  /** A mode stop registers itself, gives up the claim for good and latches. */
  lemma ModeStopIsReported(c: Config, s: State, ch: Choice)
    requires s.ctl.pc.Idle? && s.ctl.claimed && ch.operation.Release?
    ensures JudgeStep(JudgeStep(JudgeStep(JudgeStep(BeginOperation(c, s, ch), ch), ch), ch), ch) ==
      s.(clock := ch.u, safety := Registered(s.safety, Request(ModeStop, ch.t, ch.u, 0)),
         ctl := s.ctl.(claimed := false, terminal := true, commit := s.ctl.commit.(latched := true), pc := Idle))
  {
    SwitchingRegisters(BeginOperation(c, s, ch), ch, Request(ModeStop, ch.t, ch.u, 0));
  }

  /** The error return is noted once, and only once something is requested. */
  lemma ErrorIsObserved(s: State, ch: Choice)
    ensures EnvironmentStep(s, ErrorCallback, ch).safety.errorNs ==
      if s.safety.sources != {} && s.safety.errorNs == 0 then ch.t else s.safety.errorNs
  {
  }

  /** A claim is granted exactly before the end and outside the feedback stop, once at a time. */
  lemma ClaimIsGranted(c: Config, s: State, ch: Choice)
    requires s.ctl.pc.Idle? && ch.operation.Claim?
    ensures BeginOperation(c, s, ch) ==
      s.(ctl := s.ctl.(claimed := s.ctl.claimed || (!s.ctl.terminal && !s.safety.feedbackStopped)))
  {
  }
}
