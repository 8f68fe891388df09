/**
 A run in which the plain loop oversleeps: the receive thread reads its clock, is delayed past the
 first send, and stores the old stamp only after the loop has loaded none. Nothing wakes the loop
 for it, and its axis is overdue from then on.
 */
module LateStamp {
  import opened Doubles
  import opened PairCommits
  import opened Seqlock
  import opened WriteSchedules
  import opened Packets
  import opened CommandPath

  const PLAIN := Config(1, Timing(10, 1, 25, 25, 1000, false), true, Bounds([], []), 0)

  const NO_VALUES: seq<Double> := [Fin(0.0), Fin(0.0), Fin(0.0), Fin(0.0), Fin(0.0)]
  const NO_WORDS: seq<Word> := [Count(0), Count(0), Count(0), Count(0), Count(0), Count(0), Count(0), Count(0),
                                Count(0)]
  const NEXT_BATCH: Batch := [Packet(ReleasedAt(Fin(0.0)), 1, 0)]

  /** Every clock reading gives `t`, every foreign call succeeds. */
  function AllWellAt(t: int): Choice {
    Choice(t, t, true, Write, Fin(0.0), NO_VALUES, NEXT_BATCH, [Fin(0.0)])
  }

  /** The part of the state that the run changes. */
  function StateWith(clock: int, rx: Rx, pc: TxPc, local: Local, view: View, job: Job, wire: seq<Frame>): State {
    State(clock, Memory(0, NO_WORDS, Resting, []), Flags(0, true, false, false, false),
          GroupSafety({}, 0, 0, 0, 0, Unattempted, false, false), rx,
          Control(Idle, Commit(0, false, false, 0), false, false, Row(Fin(0.0), NO_VALUES, 0, 0, []), BootWait), [], [],
          pc, Box([], 0, 0, Reader(Off, 0, 0), 0), local, view, job, Ready(false, false), 0, wire, [])
  }

  const NO_JOB := Job([], false, 0, 0, 0, false)

  ghost predicate Reachable(s: State) {
    exists run :: IsRun(PLAIN, run) && run[|run| - 1] == s
  }

  lemma LongerRun(run: seq<State>, s': State)
    requires IsRun(PLAIN, run) && Next(PLAIN, run[|run| - 1], s')
    ensures IsRun(PLAIN, run + [s'])
  {
    var longer := run + [s'];
    forall i: nat | i + 1 < |longer|
      ensures StepAt(PLAIN, longer, i)
    {
      if i + 1 < |run| {
        assert StepAt(PLAIN, run, i);
      }
    }
  }

  lemma Extend(s: State, s': State, who: Actor, ch: Choice)
    requires Reachable(s) && Step(PLAIN, s, s', who, ch)
    ensures Reachable(s')
  {
    assert Next(PLAIN, s, s');
    var run :| IsRun(PLAIN, run) && run[|run| - 1] == s;
    LongerRun(run, s');
    assert (run + [s'])[|run + [s']| - 1] == s';
  }

  /** One step of the send thread. */
  lemma SendThreadSteps(s: State, t: int)
    requires Reachable(s) && s.clock <= t && |s.ctl.row.values| == FIELDS && s.published == []
    ensures Reachable(TxStep(PLAIN, s, AllWellAt(t)))
  {
    Extend(s, TxStep(PLAIN, s, AllWellAt(t)), SendThread, AllWellAt(t));
  }

  // ----- the states on the way

  function IdleSchedule(lastSend: int): Schedule {
    Schedule(0, 0, 0, lastSend, 0, false)
  }

  const BEFORE_SEND := Local(IdleSchedule(0), false, 0, 60, 0)
  const AFTER_SEND := Local(IdleSchedule(100), false, 0, 110, 100)

  function ViewAt(now: int, received: seq<int>): View {
    View(now, Seen(0, false, received), NoStop, false, 60, [])
  }

  function InPass(clock: int, pc: LoopPc, local: Local, view: View, job: Job, wire: seq<Frame>): State {
    StateWith(clock, Rx(70, [0]), InLoop(pc), local, view, job, wire)
  }

  lemma Activated()
    ensures Reachable(StateWith(60, Rx(0, [0]), InSafety(Top), BEFORE_SEND, ViewAt(60, []), NO_JOB, []))
  {
    var s := StateWith(60, Rx(0, [0]), InSafety(Top), BEFORE_SEND, ViewAt(60, []), NO_JOB, []);
    assert Initial(PLAIN, s);
    var run := [s];
    assert IsRun(PLAIN, run) && run[|run| - 1] == s;
  }

  lemma FrameArrives()
    ensures Reachable(StateWith(70, Rx(70, [0]), InSafety(Top), BEFORE_SEND, ViewAt(60, []), NO_JOB, []))
  {
    Activated();
    var s := StateWith(60, Rx(0, [0]), InSafety(Top), BEFORE_SEND, ViewAt(60, []), NO_JOB, []);
    Extend(s, EnvironmentStep(s, RxFrame, AllWellAt(70)), Environment(RxFrame), AllWellAt(70));
  }

  lemma ReadsClock(clock: int, t: int, local: Local, view: View, job: Job, wire: seq<Frame>)
    requires clock <= t && Reachable(StateWith(clock, Rx(70, [0]), InSafety(Top), local, view, job, wire))
    ensures Reachable(InPass(t, TxStopAll, local, view.(now := t), job, wire))
  {
    SendThreadSteps(StateWith(clock, Rx(70, [0]), InSafety(Top), local, view, job, wire), clock);
    SendThreadSteps(InPass(clock, TxRunning, local, view, job, wire), clock);
    SendThreadSteps(InPass(clock, TxClock, local, view, job, wire), t);
  }

  lemma PassesFlags(t: int, local: Local, view: View, job: Job, wire: seq<Frame>)
    requires Reachable(InPass(t, TxStopAll, local, view, job, wire))
    ensures Reachable(InPass(t, TxVersion, local, view, job, wire))
  {
    SendThreadSteps(InPass(t, TxStopAll, local, view, job, wire), t);
    SendThreadSteps(InPass(t, TxNotify, local, view, job, wire), t);
  }

  /** From the top of the loop to the loads of the reply stamps. */
  lemma FirstHalf(clock: int, t: int, local: Local, view: View, job: Job, wire: seq<Frame>)
    requires clock <= t && !local.snapshotFailed
    requires view.seen.armed == 0 && !view.seen.rxFault
    requires Reachable(StateWith(clock, Rx(70, [0]), InSafety(Top), local, view, job, wire))
    ensures Reachable(InPass(t, TxArmed, local, view.(now := t), job, wire))
  {
    ReadsClock(clock, t, local, view, job, wire);
    PassesFlags(t, local, view.(now := t), job, wire);
    SendThreadSteps(InPass(t, TxVersion, local, view.(now := t), job, wire), t);
  }

  lemma LoadsStamps(t: int, local: Local, now: int, received: seq<int>, job: Job, wire: seq<Frame>)
    requires Reachable(InPass(t, TxArmed, local, ViewAt(now, received), job, wire))
    ensures Reachable(InPass(t, TxReplies, local, ViewAt(now, [0]), job, wire))
  {
    SendThreadSteps(InPass(t, TxArmed, local, ViewAt(now, received), job, wire), t);
    SendThreadSteps(InPass(t, TxRxFault, local, ViewAt(now, received), job, wire), t);
    SendThreadSteps(InPass(t, TxReplies, local, ViewAt(now, []), job, wire), t);
  }

  /** From there to the decision; the stamp is still missing. */
  lemma RepliesAreIn(t: int, local: Local, now: int, received: seq<int>, job: Job, wire: seq<Frame>)
    requires Reachable(InPass(t, TxArmed, local, ViewAt(now, received), job, wire))
    ensures Reachable(InPass(t, Decide, local, ViewAt(now, [0]), job, wire))
  {
    LoadsStamps(t, local, now, received, job, wire);
    SendThreadSteps(InPass(t, TxReplies, local, ViewAt(now, [0]), job, wire), t);
  }

  lemma SecondHalf(t: int, local: Local, now: int, received: seq<int>, job: Job, wire: seq<Frame>)
    requires Reachable(InPass(t, TxArmed, local, ViewAt(now, received), job, wire))
    requires StopReason(PLAIN.timing, local, Seen(0, false, [0]), now) == NoStop
    ensures Reachable(InPass(t, Settle, local, ViewAt(now, [0]), job, wire))
  {
    RepliesAreIn(t, local, now, received, job, wire);
    SendThreadSteps(InPass(t, Decide, local, ViewAt(now, [0]), job, wire), t);
  }

  const RELEASED := AllReleased([Fin(0.0)])

  function Sending(pc: FramePc, job: Job, wire: seq<Frame>): State {
    StateWith(100, Rx(70, [0]), InFrames(pc), BEFORE_SEND, ViewAt(100, [0]), job, wire)
  }

  function BootstrapJob(sent: nat, at: int): Job {
    Job(RELEASED, false, sent, at, at, false)
  }

  const FIRST_FRAME := Frame(Bootstrap, RELEASED, 100, true, false, 0, false)

  lemma FirstPass()
    ensures Reachable(InPass(100, Settle, BEFORE_SEND, ViewAt(100, [0]), NO_JOB, []))
  {
    FrameArrives();
    FirstHalf(70, 100, BEFORE_SEND, ViewAt(60, []), NO_JOB, []);
    SecondHalf(100, BEFORE_SEND, 100, [], NO_JOB, []);
  }

  /** A bootstrap frame is due. */
  lemma Decides()
    ensures Reachable(Sending(FrameRunning, BootstrapJob(0, 0), []))
  {
    FirstPass();
    SendThreadSteps(InPass(100, Settle, BEFORE_SEND, ViewAt(100, [0]), NO_JOB, []), 100);
  }

  lemma PassesChecks()
    ensures Reachable(Sending(FrameVersion, BootstrapJob(0, 0), []))
  {
    Decides();
    SendThreadSteps(Sending(FrameRunning, BootstrapJob(0, 0), []), 100);
    SendThreadSteps(Sending(FrameStopAll, BootstrapJob(0, 0), []), 100);
    SendThreadSteps(Sending(FrameSources, BootstrapJob(0, 0), []), 100);
  }

  lemma PassesBoundary()
    ensures Reachable(Sending(FrameClock, BootstrapJob(0, 0), []))
  {
    PassesChecks();
    SendThreadSteps(Sending(FrameVersion, BootstrapJob(0, 0), []), 100);
    SendThreadSteps(Sending(FrameRx, BootstrapJob(0, 0), []), 100);
  }

  lemma PassesFirstClock()
    ensures Reachable(Sending(FrameStamp, BootstrapJob(0, 0), []))
  {
    PassesBoundary();
    SendThreadSteps(Sending(FrameClock, BootstrapJob(0, 0), []), 100);
  }

  lemma PassesClocks()
    ensures Reachable(Sending(FrameSend, BootstrapJob(0, 100), []))
  {
    PassesFirstClock();
    SendThreadSteps(Sending(FrameStamp, BootstrapJob(0, 0), []), 100);
  }

  lemma Sends()
    ensures Reachable(Sending(FrameRunning, BootstrapJob(1, 100), [FIRST_FRAME]))
  {
    PassesClocks();
    SendThreadSteps(Sending(FrameSend, BootstrapJob(0, 100), []), 100);
  }

  /** It leaves at 100. */
  lemma FirstSend()
    ensures Reachable(StateWith(100, Rx(70, [0]), InSafety(Top), AFTER_SEND, ViewAt(100, [0]), BootstrapJob(1, 100),
                                [FIRST_FRAME]))
  {
    Sends();
    SendThreadSteps(Sending(FrameRunning, BootstrapJob(1, 100), [FIRST_FRAME]), 100);
    SendThreadSteps(Sending(FrameEnd, BootstrapJob(1, 100), [FIRST_FRAME]), 100);
  }

  lemma SecondPass()
    ensures Reachable(InPass(101, Settle, AFTER_SEND, ViewAt(101, [0]), BootstrapJob(1, 100), [FIRST_FRAME]))
  {
    FirstSend();
    FirstHalf(100, 101, AFTER_SEND, ViewAt(100, [0]), BootstrapJob(1, 100), [FIRST_FRAME]);
    SecondHalf(101, AFTER_SEND, 101, [0], BootstrapJob(1, 100), [FIRST_FRAME]);
  }

  /** The loop goes to sleep at 101. */
  lemma GoesToSleep()
    ensures Reachable(InPass(101, Sleep, AFTER_SEND, ViewAt(101, [0]), BootstrapJob(1, 100), [FIRST_FRAME]))
  {
    SecondPass();
    SendThreadSteps(InPass(101, Settle, AFTER_SEND, ViewAt(101, [0]), BootstrapJob(1, 100), [FIRST_FRAME]), 101);
  }

  const ASLEEP := StateWith(101, Rx(70, [70]), InLoop(Sleep), AFTER_SEND, ViewAt(101, [0]), BootstrapJob(1, 100),
                            [FIRST_FRAME])

  /** The stamp of 70 is stored now. */
  lemma StampArrives()
    ensures Reachable(ASLEEP)
  {
    GoesToSleep();
    var s := InPass(101, Sleep, AFTER_SEND, ViewAt(101, [0]), BootstrapJob(1, 100), [FIRST_FRAME]);
    Extend(s, EnvironmentStep(s, RxStamp(0), AllWellAt(101)), Environment(RxStamp(0)), AllWellAt(101));
  }

  /** With the stamps as they are now, something is due before the timer armed right now. */
  ghost predicate Oversleeps(s: State) {
    && s.pc == InLoop(Sleep)
    && !MissesNothing(PLAIN.timing, s.local, s.view.seen, s.rx.stamps, s.view.now, s.clock)
  }

  /** The axis is overdue since 95, and the timer is set to 110. */
  lemma AxisIsOverdue()
    ensures Oversleeps(ASLEEP)
  {
    var seen := Seen(0, false, [0]);
    OvertakenIsDue(PLAIN.timing, AFTER_SEND, seen, [70], 101, 0);
    QuietExactly(PLAIN.timing, AFTER_SEND, seen.(received := [70]), 101);
    assert [0][..0] == [];
    assert FeedbackDue(PLAIN.timing, AFTER_SEND, [0], 101) == 125;
    assert Timer(PLAIN.timing, AFTER_SEND, seen, 101, 101) == 110;
  }

  lemma PlainLoopCanOversleep()
    ensures ValidConfig(PLAIN) && exists s :: Reachable(s) && Oversleeps(s)
  {
    StampArrives();
    AxisIsOverdue();
  }
}
