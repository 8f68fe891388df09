/**
 What the send thread of CommandPath does while the other threads leave it alone: a new publication is
 taken over and leaves, what is due is sent, what stops the stream stops it, and a safety request
 that is ready is attempted.
 */
module SendProgress {
  import opened Doubles
  import opened Seqlock
  import opened WriteSchedules
  import opened Packets
  import opened CommandPath
  import opened Progress

  /** Step i of a stretch in which only the send thread runs. */
  predicate StepOf(c: Config, run: seq<State>, pick: Choices, i: nat)
    requires i + 1 < |run|
  {
    run[i + 1] == TxStep(c, run[i], pick(i))
  }

  ghost predicate Alone(c: Config, run: seq<State>, pick: Choices) {
    forall i: nat | i + 1 < |run| :: StepOf(c, run, pick, i)
  }

  // ----- to the decision

  predicate Undisturbed(flags: Flags) {
    flags.running && !flags.stopAll && !flags.notifyFailed
  }

  /** The head of the loop, from its look at the running flag to the version of the snapshot. */
  lemma HeadGoesOn(c: Config, run: seq<State>, pick: Choices, k: nat)
    requires Alone(c, run, pick) && k + 4 < |run| && run[k].pc == InLoop(TxRunning) && Undisturbed(run[k].flags)
    ensures run[k + 4] ==
      run[k].(clock := pick(k + 1).t, view := run[k].view.(now := pick(k + 1).t), pc := InLoop(TxVersion))
  {
    assert StepOf(c, run, pick, k);
    assert StepOf(c, run, pick, k + 1);
    assert StepOf(c, run, pick, k + 2);
    assert StepOf(c, run, pick, k + 3);
  }

  /** A flag against going on ends the thread, through the fault for a lost notification. */
  lemma HeadObeys(c: Config, s: State, ch: Choice)
    requires s.pc.InLoop?
    ensures s.pc.loop.TxRunning? ==> (TxStep(c, s, ch).pc == InSafety(Done) <==> !s.flags.running)
    ensures s.pc.loop.TxStopAll? ==> (TxStep(c, s, ch).pc == InSafety(Done) <==> s.flags.stopAll)
    ensures s.pc.loop.TxNotify? ==> (TxStep(c, s, ch).pc == InSafety(Fault) <==> s.flags.notifyFailed)
  {
  }

  lemma {:induction false} ReadsWords(c: Config, run: seq<State>, pick: Choices, k: nat, n: nat)
    requires Alone(c, run, pick) && k + n + 1 < |run| && run[k].pc == InLoop(TxRead)
    requires run[k].box.reader.phase.Opening? && n <= |run[k].memory.words|
    requires run[k].memory.version > 0 && run[k].memory.version % 2 == 0
    ensures run[k + n + 1] ==
      run[k].(box := run[k].box.(reader := Loads(run[k].memory, run[k].box.reader, n + 1)))
  {
    var m, r := run[k].memory, run[k].box.reader;
    CopiesWords(m, r, n);
    if n > 0 {
      ReadsWords(c, run, pick, k, n - 1);
    } else {
      assert Loads(m, r, 0) == r;
    }
    assert StepOf(c, run, pick, k + n);
    assert Loads(m, r, n + 1) == Load(m, Loads(m, r, n));
  }

  /** The state with this new batch taken over whole. */
  function WithBatch(c: Config, s: State, batch: Batch): State
    requires batch != []
  {
    var v, head := s.memory.version, batch[0];
    s.(box := Box(batch, v, v, Reader(Won(v, s.memory.words), 1, v / 2), v / 2),
       local := s.local.(snapshotFailed := false, retryDue := 0,
                         schedule := s.local.schedule.(
                           sequence := head.sequence, publishedNs := head.publishedNs,
                           resendNs := head.publishedNs + c.timing.period + c.timing.grace)),
       resends := 0, pc := InLoop(TxArmed))
  }

  /** The snapshot holds this batch, complete, with a number the thread does not have. */
  predicate Offers(s: State, batch: Batch) {
    && s.memory.version > 0 && s.memory.version % 2 == 0 && s.memory.words == Words(batch)
    && batch != [] && batch[0].sequence != s.local.schedule.sequence
  }

  /** The closing load of a read left alone hands the batch over. */
  lemma ClosingLoadTakes(c: Config, s: State, s': State, ch: Choice, batch: Batch)
    requires Offers(s, batch)
    requires s' == s.(box := s.box.(version := s.memory.version, reader := s'.box.reader), pc := InLoop(TxRead))
    requires s'.box.reader == Loads(s.memory, Start(s.box.reader), |s.memory.words| + 1)
    ensures TxStep(c, s', ch) == WithBatch(c, s, batch)
  {
    QuietReadWins(s.memory, s.box.reader);
    ParseWords(batch);
  }

  lemma OpensRead(c: Config, s: State, ch: Choice)
    requires s.pc == InLoop(TxVersion)
    ensures TxStep(c, s, ch) ==
      if s.memory.version != s.box.observed || s.local.snapshotFailed
      then s.(box := s.box.(version := s.memory.version, reader := Start(s.box.reader)), pc := InLoop(TxRead))
      else s.(box := s.box.(version := s.memory.version), pc := InLoop(TxArmed))
  {
  }

  /** A complete publication with a new number is taken over by the next pass. */
  lemma PublicationIsTaken(c: Config, run: seq<State>, pick: Choices, k: nat, batch: Batch)
    requires Alone(c, run, pick) && k < |run| && k + |run[k].memory.words| + 3 < |run| && run[k].pc == InLoop(TxVersion)
    requires Offers(run[k], batch) && (run[k].memory.version != run[k].box.observed || run[k].local.snapshotFailed)
    ensures run[k + |run[k].memory.words| + 3] == WithBatch(c, run[k], batch)
  {
    var n := |run[k].memory.words|;
    OpensRead(c, run[k], pick(k));
    assert StepOf(c, run, pick, k);
    ReadsWords(c, run, pick, k + 1, n);
    ClosingLoadTakes(c, run[k], run[k + n + 2], pick(k + n + 2), batch);
    assert StepOf(c, run, pick, k + n + 2);
  }

  /** A read that is lost leaves the cache alone and is tried again a twentieth of a period later. */
  lemma LostReadRetries(c: Config, s: State, ch: Choice)
    requires s.pc == InLoop(TxRead) && Load(s.memory, s.box.reader).phase.Lost?
    ensures var s' := TxStep(c, s, ch);
      && s'.pc == InLoop(TxArmed) && s'.box.cache == s.box.cache && s'.box.observed == s.box.observed
      && s'.local == s.local.(snapshotFailed := true, retryDue := s'.local.retryDue)
      && s'.local.retryDue - s.view.now == if c.timing.period < 20 then 1 else c.timing.period / 20
  {
  }

  lemma {:induction false} LoadsStamps(c: Config, run: seq<State>, pick: Choices, k: nat, n: nat)
    requires Alone(c, run, pick) && k + n < |run| && run[k].pc == InLoop(TxReplies)
    requires run[k].view.seen.received == [] && n <= |run[k].rx.stamps|
    ensures run[k + n] ==
      run[k].(view := run[k].view.(seen := run[k].view.seen.(received := run[k].rx.stamps[..n])))
  {
    if n > 0 {
      LoadsStamps(c, run, pick, k, n - 1);
      assert StepOf(c, run, pick, k + n - 1);
      assert run[k].rx.stamps[..n - 1] + [run[k].rx.stamps[n - 1]] == run[k].rx.stamps[..n];
    }
  }

  /** What the decision will have loaded. */
  function There(c: Config, s: State): Seen {
    Seen(if c.origin != 0 then c.origin else s.flags.armed, s.flags.rxFault, s.rx.stamps)
  }

  /** Everything the decision looks at is loaded, and the stop is the one that is due. */
  lemma DecidesOnWhatIsThere(c: Config, run: seq<State>, pick: Choices, k: nat, stop: Stop)
    requires Alone(c, run, pick) && k < |run| && k + |run[k].rx.stamps| + 4 < |run| && run[k].pc == InLoop(TxArmed)
    requires StopDue(c.timing, run[k].local, There(c, run[k]), run[k].view.now, stop)
    ensures run[k + |run[k].rx.stamps| + 4] ==
      run[k].(view := run[k].view.(seen := There(c, run[k]), stop := stop),
              pc := if c.timing.group && (stop.NoStop? || ZeroStop(stop)) then InSafety(Collect(true))
                    else InLoop(Settle))
  {
    var n := |run[k].rx.stamps|;
    assert StepOf(c, run, pick, k);
    assert StepOf(c, run, pick, k + 1);
    LoadsStamps(c, run, pick, k + 2, n);
    assert run[k].rx.stamps[..n] == run[k].rx.stamps;
    assert StepOf(c, run, pick, k + n + 2);
    assert StepOf(c, run, pick, k + n + 3);
    StopsExactly(c.timing, run[k].local, There(c, run[k]), run[k].view.now, stop);
  }

  lemma {:induction false} CapturesStamps(c: Config, run: seq<State>, pick: Choices, k: nat, mid: bool, n: nat)
    requires Alone(c, run, pick) && k + n < |run| && run[k].pc == InSafety(Capture(mid))
    requires run[k].view.captured == [] && n <= |run[k].rx.stamps|
    ensures run[k + n] == run[k].(view := run[k].view.(captured := run[k].rx.stamps[..n]))
  {
    if n > 0 {
      CapturesStamps(c, run, pick, k, mid, n - 1);
      assert StepOf(c, run, pick, k + n - 1);
      assert run[k].rx.stamps[..n - 1] + [run[k].rx.stamps[n - 1]] == run[k].rx.stamps[..n];
    }
  }

  /** The pair-mode capture: while the result is open every stamp is loaded and judged at the clock
      reading after them, and a silent axis not seen before is found. */
  lemma CaptureJudges(c: Config, run: seq<State>, pick: Choices, k: nat, mid: bool)
    requires Alone(c, run, pick) && k < |run| && k + |run[k].rx.stamps| + 2 < |run|
    requires c.timing.group && c.timing.maxFeedbackAge >= 0
    requires run[k].pc == InSafety(Collect(mid)) && !Finished(run[k].safety.result)
    ensures var s, n := run[k], |run[k].rx.stamps|;
      var t := pick(k + n + 1).t;
      var stale := !s.view.staleDetected && CaptureDue(c.timing, s.local, s.rx.stamps, t);
      run[k + n + 2] ==
      s.(clock := t,
         view := s.view.(captured := s.rx.stamps, evaluated := t, staleDetected := s.view.staleDetected || stale),
         pc := if stale then InSafety(StopStore(mid)) else if mid then InLoop(Settle) else InSafety(WatchClock))
  {
    var n := |run[k].rx.stamps|;
    assert StepOf(c, run, pick, k);
    CapturesStamps(c, run, pick, k + 1, mid, n);
    assert run[k].rx.stamps[..n] == run[k].rx.stamps;
    assert StepOf(c, run, pick, k + n + 1);
    CapturesExactly(c.timing, run[k].local, run[k].rx.stamps, pick(k + n + 1).t);
  }

  /** A silent axis raises the stop latch before it registers itself. */
  lemma SilenceIsReported(c: Config, run: seq<State>, pick: Choices, k: nat, mid: bool)
    requires Alone(c, run, pick) && k + 6 < |run| && run[k].pc == InSafety(StopStore(mid))
    ensures var s, t := run[k], pick(k + 1).t;
      run[k + 6] ==
      s.(clock := t, safety := Registered(s.safety.(feedbackStopped := true),
                                          Request(FeedbackStale, s.view.evaluated, t, 0)),
         pc := if mid then InLoop(Settle) else InSafety(WatchClock))
  {
    assert StepOf(c, run, pick, k);
    assert StepOf(c, run, pick, k + 1);
    RequestIsRegistered(c, run, pick, k + 2, run[k + 2].pc.safety.request, AfterCollect(mid));
  }

  lemma RequestIsRegistered(c: Config, run: seq<State>, pick: Choices, k: nat, r: Request, next: After)
    requires Alone(c, run, pick) && k + 4 < |run| && run[k].pc == InSafety(Requesting(r, next)) && r.step == 0
    ensures run[k + 4] == run[k].(safety := Registered(run[k].safety, r), pc := AfterPc(next))
  {
    assert StepOf(c, run, pick, k);
    assert StepOf(c, run, pick, k + 1);
    assert StepOf(c, run, pick, k + 2);
    assert StepOf(c, run, pick, k + 3);
    RequestRegisters(run[k].safety, r);
  }

  /** The command watchdog registers an expired command once. */
  lemma WatchdogReports(c: Config, s: State, ch: Choice)
    requires s.pc == InSafety(WatchClock) || s.pc == InSafety(WatchSources)
    ensures s.pc.safety.WatchClock? ==>
      TxStep(c, s, ch) ==
      s.(clock := ch.t, pc := InSafety(if TooOld(c.timing, s.local.schedule, ch.t) then WatchSources else Perform))
    ensures s.pc.safety.WatchSources? && Watchdog in s.safety.sources ==>
      TxStep(c, s, ch) == s.(pc := InSafety(Perform))
    ensures s.pc.safety.WatchSources? && Watchdog !in s.safety.sources ==>
      TxStep(c, s, ch) ==
      s.(clock := ch.u, pc := InSafety(Requesting(Request(Watchdog, ch.t, ch.u, 0), ToPerform)))
  {
  }

  // ----- what the decision leads to

  /** What the pass does next is decided by what is due alone. */
  lemma SettlesExactly(c: Config, s: State, ch: Choice)
    requires s.pc == InLoop(Settle)
    ensures var s', v := TxStep(c, s, ch), s.view;
      match v.stop
      case NoStop =>
        && (s'.pc == InSafety(Top) <==> c.timing.group && v.staleDetected)
        && (s'.pc == InLoop(Sleep) <==> !(c.timing.group && v.staleDetected) && !BatchDue(c.timing, s.local, v.now))
        && (s'.pc == InSafety(Fault) <==>
              !(c.timing.group && v.staleDetected) && BatchDue(c.timing, s.local, v.now) && !ch.yes)
        && (s'.pc == InFrames(FrameRunning) <==>
              !(c.timing.group && v.staleDetected) && BatchDue(c.timing, s.local, v.now) && ch.yes)
      case RxFault => s'.pc == InSafety(Fault)
      case FeedbackLost => s'.pc == InSafety(Fault)
      case _ =>
        if c.timing.group then s'.pc == InSafety(Requesting(Request(Watchdog, v.now, ch.t, 0), ToTop))
        else s'.pc == (if ch.yes then InFrames(FrameRunning) else InSafety(Fault))
    ensures var s', schedule := TxStep(c, s, ch), s.local.schedule;
      s'.pc.InFrames? ==>
        && s'.job.sent == 0 && s'.job.sendAt == 0 && !s'.job.failed
        && (s'.job.resend <==>
              (schedule.sequence != 0 && schedule.sequence == schedule.sentSequence && !s.local.snapshotFailed &&
               s.view.now >= schedule.resendNs))
        && s'.job.commands == if schedule.sequence != 0 && s.view.stop.NoStop? then Commands(s.box.cache)
                              else AllReleased(ch.positions)
  {
    SendsExactly(c.timing, s.local, s.view.now);
  }

  /** A released batch holds every axis where its position is, with nothing else. */
  lemma ReleasedHolds(positions: seq<Double>, i: nat)
    requires i < |positions|
    ensures |AllReleased(positions)| == |positions|
    ensures AllReleased(positions)[i] == Command(positions[i], Fin(0.0), Fin(0.0), Fin(0.0), Fin(0.0))
  {
  }

  /** Nothing forbids the next frame of this batch. */
  predicate MayLeave(c: Config, s: State) {
    && s.flags.running && !s.flags.stopAll && (c.timing.group ==> s.safety.sources == {})
    && (s.view.stop.NoStop? ==> !s.flags.rxFault)
    && (s.job.sent == 0 && s.local.schedule.sequence != 0 && s.view.stop.NoStop? ==> s.memory.version == s.box.observed)
  }

  /** The command of this batch is still young enough at t. */
  predicate Young(c: Config, s: State, t: int) {
    s.local.schedule.sequence != 0 && s.view.stop.NoStop? ==> t < s.local.schedule.publishedNs + c.timing.maxCommandAge
  }

  /** The five flags are looked at one after the other. */
  lemma FlagsArePassed(c: Config, run: seq<State>, pick: Choices, k: nat)
    requires Alone(c, run, pick) && k + 5 < |run| && run[k].pc == InFrames(FrameRunning)
    requires run[k].job.sent < Frames(c) && MayLeave(c, run[k])
    requires run[k].view.stop.NoStop? || ZeroStop(run[k].view.stop)
    ensures run[k + 5] == run[k].(pc := InFrames(FrameClock))
  {
    assert StepOf(c, run, pick, k);
    assert run[k + 1] == run[k].(pc := InFrames(FrameStopAll));
    assert StepOf(c, run, pick, k + 1);
    assert run[k + 2] == run[k].(pc := InFrames(FrameSources));
    assert StepOf(c, run, pick, k + 2);
    assert run[k + 3] == run[k].(pc := InFrames(FrameVersion));
    assert StepOf(c, run, pick, k + 3);
    assert run[k + 4] == run[k].(pc := InFrames(FrameRx));
    assert StepOf(c, run, pick, k + 4);
  }

  /** The frame a batch owes next, with its pre-send clock reading. */
  function OwedFrame(c: Config, s: State, at: int): Frame {
    var job, number := s.job, s.local.schedule.sequence;
    Frame(if !s.view.stop.NoStop? then ZeroGainStop else if number != 0 then Normal(number) else Bootstrap,
          if c.broadcast || job.sent >= |job.commands| then job.commands else [job.commands[job.sent]],
          at, job.sent == 0, job.resend && s.view.stop.NoStop? && number != 0,
          s.local.schedule.publishedNs, s.safety.sources != {})
  }

  /** One frame, seven checks and the send: with nothing against it and the bus willing, it is on the
      wire with the batch's commands and the time of the last check. */
  lemma FrameLeaves(c: Config, run: seq<State>, pick: Choices, k: nat)
    requires Alone(c, run, pick) && k + 8 < |run| && run[k].pc == InFrames(FrameRunning)
    requires run[k].job.sent < Frames(c) && MayLeave(c, run[k])
    requires run[k].view.stop.NoStop? || ZeroStop(run[k].view.stop)
    requires Young(c, run[k], pick(k + 5).t) && Young(c, run[k], pick(k + 6).t) && pick(k + 7).yes
    ensures var s, at, job := run[k], pick(k + 6).t, run[k].job;
      run[k + 8] ==
      s.(clock := at,
         job := job.(before := at, sendAt := if job.sendAt == 0 then at else job.sendAt, sent := job.sent + 1),
         wire := s.wire + [OwedFrame(c, s, at)])
  {
    FlagsArePassed(c, run, pick, k);
    assert StepOf(c, run, pick, k + 5);
    assert run[k + 6] == run[k].(pc := InFrames(FrameStamp), clock := pick(k + 5).t);
    assert StepOf(c, run, pick, k + 6);
    assert StepOf(c, run, pick, k + 7);
  }

  /** What is against a frame ends its batch before the send. */
  lemma FrameIsHeldBack(c: Config, s: State, ch: Choice)
    requires s.pc.InFrames? && (s.view.stop.NoStop? || ZeroStop(s.view.stop))
    ensures var s', active := TxStep(c, s, ch), s.local.schedule.sequence != 0 && s.view.stop.NoStop?;
      match s.pc.frame
      case FrameRunning => s'.pc == InFrames(FrameEnd) <==> s.job.sent >= Frames(c) || !s.flags.running
      case FrameStopAll => s'.pc == InFrames(FrameEnd) <==> s.flags.stopAll
      case FrameSources => s'.pc == InFrames(FrameEnd) <==> c.timing.group && s.safety.sources != {}
      case FrameVersion => s'.pc == InFrames(FrameEnd) <==>
          active && s.job.sent == 0 && s.memory.version != s.box.observed
      case FrameRx => s'.pc == InFrames(FrameEnd) <==> s.view.stop.NoStop? && s.flags.rxFault
      case FrameClock => s'.pc == InFrames(FrameEnd) <==> !Young(c, s, ch.t)
      case FrameStamp => s'.pc == InFrames(FrameEnd) <==> !Young(c, s, ch.t)
      case FrameSend => s'.pc == InFrames(FrameFail) <==> !ch.yes
      case _ => true
  {
  }

  /** The end of a batch: what was sent is on the schedule from its first frame on, and a repeat or a
      bootstrap is next due one period later. */
  lemma BatchIsBooked(c: Config, s: State, ch: Choice)
    requires s.pc == InFrames(FrameEnd)
    ensures var s', at := TxStep(c, s, ch), s.job.sendAt;
      if s.job.sent == 0 then s'.local == s.local
      else
        && s'.local.schedule == s.local.schedule.(
             sentSequence := s.local.schedule.sequence, lastSendNs := at, lastWasResend := s.job.resend,
             resendNs := if s.job.resend then at + c.timing.period else s.local.schedule.resendNs)
        && s'.local.bootstrapDue == at + c.timing.period
        && s'.local.firstSend == (if s.local.firstSend == 0 then at else s.local.firstSend)
    ensures var s' := TxStep(c, s, ch);
      if s.view.stop.NoStop? then s'.pc == InSafety(if s.job.failed then Done else Top)
      else if ZeroStop(s.view.stop) then
        s'.pc == InSafety(if s.job.failed || !s.flags.running || s.flags.stopAll then Done else Fault)
      else true
  {
  }

  /** A refused frame stops the other buses and ends the thread. */
  lemma RefusedFrameStops(c: Config, run: seq<State>, pick: Choices, k: nat)
    requires Alone(c, run, pick) && k + 3 < |run| && run[k].pc == InFrames(FrameSend) && !pick(k).yes
    requires run[k].view.stop.NoStop? || ZeroStop(run[k].view.stop)
    ensures run[k + 3].pc == InSafety(Done) && run[k + 3].flags.stopAll && run[k + 3].wire == run[k].wire
  {
    assert StepOf(c, run, pick, k);
    assert StepOf(c, run, pick, k + 1);
    assert StepOf(c, run, pick, k + 2);
  }

  // ----- from a publication to the wire

  /** Every choice from k on says yes and reads the clock between `from` and `to`. */
  ghost predicate Willing(pick: Choices, k: nat, from: int, to: int) {
    forall i: nat | k <= i :: pick(i).yes && from <= pick(i).t <= to
  }

  /** Nothing keeps a pass that reads the clock between `from` and `to` from sending a new batch. */
  predicate Clear(c: Config, s: State, from: int, to: int) {
    && Undisturbed(s.flags) && !s.flags.rxFault && s.safety.sources == {} && !Finished(s.safety.result)
    && !s.view.staleDetected
    && (s.local.schedule.lastSendNs == 0 || from >= s.local.schedule.lastSendNs + c.timing.period / 2)
    && (forall a | 0 <= a < |s.rx.stamps| :: !Silent(c.timing, s.local.firstSend, s.rx.stamps[a], to))
  }

  /** The publication is newer than everything sent, and stays young. */
  predicate IsNew(c: Config, s: State, batch: Batch, to: int) {
    && Offers(s, batch) && s.memory.version != s.box.observed && batch[0].sequence != 0
    && batch[0].sequence != s.local.schedule.sentSequence && to < batch[0].publishedNs + c.timing.maxCommandAge
  }

  function PassLength(c: Config, s: State): nat {
    |s.memory.words| + |s.rx.stamps| + 12 + (if c.timing.group then |s.rx.stamps| + 2 else 0)
  }

  lemma NothingStops(c: Config, s: State, from: int, to: int, now: int)
    requires Clear(c, s, from, to) && from <= now <= to && s.local.schedule.sequence != 0
    requires to < s.local.schedule.publishedNs + c.timing.maxCommandAge
    ensures StopDue(c.timing, s.local, There(c, s), now, NoStop)
  {
  }

  lemma NothingIsSilent(c: Config, s: State, from: int, to: int, now: int)
    requires Clear(c, s, from, to) && now <= to && c.timing.maxFeedbackAge >= 0
    ensures !CaptureDue(c.timing, s.local, s.rx.stamps, now)
  {
    forall a | 0 <= a < |s.rx.stamps|
      ensures s.local.firstSend != 0 && now >= s.local.firstSend + c.timing.maxFeedbackAge ==>
        s.rx.stamps[a] != 0 && now < s.rx.stamps[a] + c.timing.maxFeedbackAge
    {
      assert !Silent(c.timing, s.local.firstSend, s.rx.stamps[a], to);
    }
  }

  /** The decision of a clear pass with a new batch: no stop, and on to the sends. */
  lemma NewBatchIsDecided(c: Config, run: seq<State>, pick: Choices, k: nat, from: int, to: int)
    requires Alone(c, run, pick) && Willing(pick, k, from, to) && k < |run| && c.timing.maxFeedbackAge >= 0
    requires k + |run[k].rx.stamps| + 4 + (if c.timing.group then |run[k].rx.stamps| + 2 else 0) < |run|
    requires run[k].pc == InLoop(TxArmed) && Clear(c, run[k], from, to) && run[k].local.schedule.sequence != 0
    requires to < run[k].local.schedule.publishedNs + c.timing.maxCommandAge && from <= run[k].view.now <= to
    ensures var s := run[k];
      var s' := run[k + |s.rx.stamps| + 4 + (if c.timing.group then |s.rx.stamps| + 2 else 0)];
      && s' == s.(clock := s'.clock, view := s'.view, pc := InLoop(Settle)) && s'.view.stop.NoStop?
      && !s'.view.staleDetected && s'.view.now == s.view.now
  {
    var n := |run[k].rx.stamps|;
    NothingStops(c, run[k], from, to, run[k].view.now);
    DecidesOnWhatIsThere(c, run, pick, k, NoStop);
    if c.timing.group {
      CaptureJudges(c, run, pick, k + n + 4, true);
      NothingIsSilent(c, run[k], from, to, pick(k + n + 4 + n + 1).t);
    }
  }

  lemma NewBatchSettles(c: Config, s: State, ch: Choice)
    requires s.pc == InLoop(Settle) && s.view.stop.NoStop? && !s.view.staleDetected && ch.yes
    requires s.local.schedule.sequence != 0 && BatchDue(c.timing, s.local, s.view.now)
    requires s.local.schedule.sequence != s.local.schedule.sentSequence
    ensures TxStep(c, s, ch) ==
      s.(job := Job(Commands(s.box.cache), false, 0, 0, 0, false), pc := InFrames(FrameRunning))
  {
    SettlesExactly(c, s, ch);
  }

  /** From the decision to the wire. */
  lemma DueBatchLeaves(c: Config, run: seq<State>, pick: Choices, k: nat, from: int, to: int)
    requires Alone(c, run, pick) && Willing(pick, k, from, to) && k + 9 < |run| && c.axes > 0
    requires run[k].pc == InLoop(Settle) && run[k].view.stop.NoStop? && !run[k].view.staleDetected
    requires run[k].local.schedule.sequence != 0 && BatchDue(c.timing, run[k].local, run[k].view.now)
    requires run[k].local.schedule.sequence != run[k].local.schedule.sentSequence
    requires Undisturbed(run[k].flags) && !run[k].flags.rxFault && run[k].safety.sources == {}
    requires run[k].memory.version == run[k].box.observed
    requires to < run[k].local.schedule.publishedNs + c.timing.maxCommandAge
    ensures var s, at := run[k], pick(k + 7).t;
      run[k + 9].wire == s.wire + [Frame(Normal(s.local.schedule.sequence),
        if c.broadcast || s.box.cache == [] then Commands(s.box.cache) else [s.box.cache[0].command],
        at, true, false, s.local.schedule.publishedNs, false)]
  {
    NewBatchSettles(c, run[k], pick(k));
    assert StepOf(c, run, pick, k);
    FrameLeaves(c, run, pick, k + 1);
  }

  /** Left alone with a new publication, a clear pass takes it over and sends it: the first frame of
      the batch, the whole of it on a broadcast bus, is on the wire after a number of steps known
      beforehand. */
  lemma PublishedBatchLeaves(c: Config, run: seq<State>, pick: Choices, k: nat, batch: Batch, from: int, to: int)
    requires ValidConfig(c) && Alone(c, run, pick) && Willing(pick, k, from, to)
    requires k < |run| && k + PassLength(c, run[k]) + 9 < |run| && run[k].pc == InSafety(Top)
    requires Clear(c, run[k], from, to) && IsNew(c, run[k], batch, to)
    ensures var n := k + PassLength(c, run[k]);
      run[n + 9].wire == run[k].wire + [Frame(Normal(batch[0].sequence),
        if c.broadcast then Commands(batch) else [batch[0].command],
        pick(n + 7).t, true, false, batch[0].publishedNs, false)]
  {
    var words, n := |run[k].memory.words|, |run[k].rx.stamps|;
    assert StepOf(c, run, pick, k);
    HeadGoesOn(c, run, pick, k + 1);
    PublicationIsTaken(c, run, pick, k + 5, batch);
    var k1 := k + 5 + words + 3;
    NewBatchIsDecided(c, run, pick, k1, from, to);
    var k2 := k1 + n + 4 + (if c.timing.group then n + 2 else 0);
    assert k2 == k + PassLength(c, run[k]);
    DueBatchLeaves(c, run, pick, k2, from, to);
  }

  /** The send thread is not ahead of the control thread. */
  predicate NotAhead(s: State) {
    && s.local.schedule.sequence <= s.ctl.commit.last && s.local.schedule.sentSequence <= s.ctl.commit.last
    && s.box.observed <= s.memory.version
  }

  /** An admissible write, then a clear pass of the send thread: the next frame on the bus carries the
      values that were written, under the number that was given. */
  lemma AdmissibleWriteLeaves(c: Config, writing: seq<State>, w: Choices, sending: seq<State>, pick: Choices, from: int,
                              to: int)
    requires ValidConfig(c) && ControlAlone(c, writing, w) && Alone(c, sending, pick) && Willing(pick, 0, from, to)
    requires writing != [] && |writing| == |writing[0].memory.words| + 12
    requires Welcome(c, writing[0], w(0), w(3).t) && writing[0].flags.armed != 0 && NotAhead(writing[0])
    requires MemoryOk(writing[0].memory) && writing[0].memory.writer.Resting?
    requires |writing[0].memory.words| == WORDS * c.axes
    requires writing[0].pc == InSafety(Top) && Clear(c, writing[0], from, to) && to < w(3).t + c.timing.maxCommandAge
    requires sending != [] && sending[0] == writing[|writing| - 1] && PassLength(c, sending[0]) + 9 < |sending|
    ensures var n, batch := PassLength(c, sending[0]), BatchFor(c, writing[0], w(0), w(3).t);
      sending[n + 9].wire == writing[0].wire + [Frame(Normal(writing[0].ctl.commit.last + 1), Commands(batch),
                                                      pick(n + 7).t, true, false, w(3).t, false)]
  {
    WriteIsPublished(c, writing, w, 0);
    var batch := BatchFor(c, writing[0], w(0), w(3).t);
    assert Offers(sending[0], batch);
    PublishedBatchLeaves(c, sending, pick, 0, batch, from, to);
  }

  // ----- from a request to its attempt

  /** A look at the requests decides between attempt, giving up and another pass. */
  lemma AttemptStarts(c: Config, run: seq<State>, pick: Choices, k: nat)
    requires Alone(c, run, pick) && k + 4 < |run| && run[k].pc == InSafety(AskAbandoned)
    ensures var s, g := run[k], run[k].safety;
      if g.abandoned then run[k + 2] == s.(safety := g.(result := Incomplete), pc := InSafety(AfterSafety))
      else if g.sources == {} then run[k + 2] == s.(pc := InSafety(AfterSafety))
      else if HwFault !in g.sources then run[k + 3] == s.(ready := Ready(false, false), pc := InSafety(Attempt))
      else if g.errorNs != 0 then run[k + 4] == s.(ready := Ready(true, true), pc := InSafety(Attempt))
      else run[k + 4] == s.(ready := Ready(true, false), pc := InSafety(AfterSafety))
  {
    assert StepOf(c, run, pick, k);
    assert StepOf(c, run, pick, k + 1);
    if !run[k].safety.abandoned && run[k].safety.sources != {} {
      assert StepOf(c, run, pick, k + 2);
      if HwFault in run[k].safety.sources {
        assert StepOf(c, run, pick, k + 3);
      }
    }
  }

  /** The positions the safety frame is built from are known and finite. */
  predicate CanBuild(ch: Choice) {
    ch.yes && forall i | 0 <= i < |ch.positions| :: IsFinite(ch.positions[i])
  }

  /** The first attempt ends with what happened: no frame could be built, the bus refused it, or it is
      on the wire. Any later attempt is none. */
  lemma AttemptEnds(c: Config, run: seq<State>, pick: Choices, k: nat)
    requires Alone(c, run, pick) && k + 4 < |run| && run[k].pc == InSafety(Attempt)
    ensures var s, g, prepared, answer := run[k], run[k].safety, pick(k + 1), pick(k + 2);
      if g.result != Unattempted then run[k + 1] == s.(pc := InSafety(AfterSafety))
      else if !CanBuild(prepared) then
        run[k + 3] == s.(clock := prepared.t, safety := g.(result := CannotGenerate), pc := InSafety(AfterSafety))
      else
        run[k + 4] ==
        s.(clock := answer.t, safety := g.(result := if answer.yes then Succeeded else SendFailed),
           safetyTries := s.safetyTries + [answer.yes], pc := InSafety(AfterSafety),
           wire := s.wire + (if !answer.yes then []
                             else [Frame(Safety, AllReleased(prepared.positions), answer.t, true, false, 0, true)]))
  {
    assert StepOf(c, run, pick, k);
    if run[k].safety.result == Unattempted {
      assert run[k + 1] == run[k].(safety := run[k].safety.(result := Processing), pc := InSafety(Prepare));
      assert StepOf(c, run, pick, k + 1);
      assert StepOf(c, run, pick, k + 2);
      if CanBuild(pick(k + 1)) {
        assert StepOf(c, run, pick, k + 3);
      }
    }
  }

  /** Any result ends the stream, on every bus; without one the loop goes on. */
  lemma ResultStops(c: Config, run: seq<State>, pick: Choices, k: nat)
    requires Alone(c, run, pick) && k + 2 < |run| && run[k].pc == InSafety(AfterSafety)
    ensures Finished(run[k].safety.result) ==>
      run[k + 2] == run[k].(flags := run[k].flags.(stopAll := true), pc := InSafety(Done))
    ensures !Finished(run[k].safety.result) ==> run[k + 1].pc == InSafety(Top) && run[k + 1].safety == run[k].safety
  {
    assert StepOf(c, run, pick, k);
    assert StepOf(c, run, pick, k + 1);
  }

  /** On the way from a visible request to its attempt, asking for nothing but stale feedback or the
      watchdog. */
  predicate OnTheWay(pc: TxPc) {
    pc.InSafety? &&
    match pc.safety
    case Collect(mid) => !mid
    case Capture(mid) => !mid
    case StopStore(mid) => !mid
    case StopAsk(mid) => !mid
    case Requesting(r, next) => r.source != HwFault && r.step <= 3 && (next.ToWatch? || next.ToPerform?)
    case WatchClock => true
    case WatchSources => true
    case _ => false
  }

  /** How many steps at most until then. */
  function StepsLeft(s: State): nat
    requires OnTheWay(s.pc)
  {
    match s.pc.safety
    case Collect(_) => |s.rx.stamps| + 15
    case Capture(_) => 14 + (if |s.view.captured| < |s.rx.stamps| then |s.rx.stamps| - |s.view.captured| else 0)
    case StopStore(_) => 13
    case StopAsk(_) => 12
    case Requesting(r, next) => (if next.ToWatch? then 7 else 1) + 4 - r.step
    case WatchClock => 7
    case WatchSources => 6
  }

  /** Nothing on the way forgets a request, finishes the result or reports a hardware fault. */
  predicate KeepsAsking(s: State, s': State) {
    && s'.safety.result == s.safety.result && s'.safety.abandoned == s.safety.abandoned
    && s'.safety.errorNs == s.safety.errorNs && s.safety.sources <= s'.safety.sources
    && (HwFault in s'.safety.sources ==> HwFault in s.safety.sources)
  }

  lemma CollectRunsOut(c: Config, s: State, ch: Choice)
    requires OnTheWay(s.pc)
    ensures var s' := TxStep(c, s, ch);
      && KeepsAsking(s, s') && s'.rx == s.rx
      && (s'.pc == InSafety(Perform) || (OnTheWay(s'.pc) && StepsLeft(s') < StepsLeft(s)))
  {
  }

  lemma {:induction false} PerformIsReached(c: Config, run: seq<State>, pick: Choices, k: nat) returns (j: nat)
    requires Alone(c, run, pick) && k < |run| && OnTheWay(run[k].pc) && k + StepsLeft(run[k]) < |run|
    ensures k <= j <= k + StepsLeft(run[k]) && run[j].pc == InSafety(Perform) && KeepsAsking(run[k], run[j])
    decreases StepsLeft(run[k])
  {
    assert StepOf(c, run, pick, k);
    CollectRunsOut(c, run[k], pick(k));
    if run[k + 1].pc == InSafety(Perform) {
      j := k + 1;
    } else {
      j := PerformIsReached(c, run, pick, k + 1);
    }
  }

  /** A request that is ready: some source is visible, and a hardware fault comes with its error. */
  predicate IsReady(g: GroupSafety) {
    !g.abandoned && g.sources != {} && (HwFault in g.sources ==> g.errorNs != 0)
  }

  /** Left alone, the send thread attempts a ready request within a number of steps known beforehand,
      whatever else it finds on its way. */
  lemma ReadyRequestIsAttempted(c: Config, run: seq<State>, pick: Choices, k: nat) returns (j: nat)
    requires c.timing.group && Alone(c, run, pick) && k < |run| && k + |run[k].rx.stamps| + 21 < |run|
    requires run[k].pc == InSafety(Top) && run[k].safety.result == Unattempted && IsReady(run[k].safety)
    ensures k < j <= k + |run[k].rx.stamps| + 21 && run[j].pc == InSafety(Attempt)
    ensures run[j].safety.result == Unattempted
  {
    assert StepOf(c, run, pick, k);
    var p := PerformIsReached(c, run, pick, k + 1);
    assert StepOf(c, run, pick, p);
    AttemptStarts(c, run, pick, p + 1);
    j := if HwFault in run[p].safety.sources then p + 5 else p + 4;
  }
}
