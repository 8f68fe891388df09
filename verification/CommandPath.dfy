/**
 The lock-free command path as one interleaved machine.

 The control thread runs writePair, the command-mode switch and publishCommandBatch
 (src/pair_system_interface.cpp, src/bus_streamer.cpp); the send thread runs sendWriteLoop,
 collectFeedbackStale and performGroupSafety (src/bus_streamer.cpp); the receive thread, the
 lifecycle thread and on_error are the environment. The receive thread reads the clock when a frame
 arrives and stores that stamp for its axis later. One step is at most one access to a shared
 atomic together with the local work up to the next one; the snapshot is stored and loaded word
 by word. A clock reading is any instant not before the previous one.

 `group` selects pair (G) mode. Without it the control thread is the plain write-triggered
 publisher, whose batches are arbitrary but numbered upwards.

 The logs `accepted`, `published`, `wire` and `safetyTries` (how the bus answered each safety frame)
 and the counters `cached` and `resends` record history; no step looks at them.
 */
module CommandPath {
  import opened Doubles
  import opened PairCommits
  import opened Seqlock
  import opened WriteSchedules
  import opened Packets

  datatype Config = Config(axes: nat, timing: Timing, broadcast: bool, bounds: Bounds, origin: int)

  predicate ValidConfig(c: Config) {
    && c.axes > 0 && ValidTiming(c.timing)
    && (c.timing.group ==> c.broadcast && 2 <= c.axes <= MAX_AXES && BoundsFor(c.bounds, c.axes * FIELDS))
  }

  // ----- shared atomics

  datatype Flags = Flags(armed: int, running: bool, stopAll: bool, notifyFailed: bool, rxFault: bool)

  datatype Source = HwFault | ModeStop | Watchdog | FeedbackStale

  datatype SafetyResult = Unattempted | Processing | CannotGenerate | SendFailed | Succeeded | Incomplete

  predicate Finished(r: SafetyResult) {
    !r.Unattempted? && !r.Processing?
  }

  datatype GroupSafety = GroupSafety(
    sources: set<Source>, requests: nat, detectedNs: int, registeredNs: int, errorNs: int,
    result: SafetyResult, abandoned: bool, feedbackStopped: bool)

  /** GroupSafety::request in progress: a counter, two first-one-wins time stamps, then the bit
      that makes it visible. */
  datatype Request = Request(source: Source, detected: int, registered: int, step: nat)

  function RequestStep(g: GroupSafety, r: Request): GroupSafety {
    match r.step
    case 0 => g.(requests := g.requests + 1)
    case 1 => g.(detectedNs := if g.detectedNs == 0 then r.detected else g.detectedNs)
    case 2 => g.(registeredNs := if g.registeredNs == 0 then r.registered else g.registeredNs)
    case _ => g.(sources := g.sources + {r.source})
  }

  /** The receive thread's clock reading, and the stamps of the last replies, zero for none. */
  datatype Rx = Rx(read: int, stamps: seq<int>)

  // ----- the control thread

  datatype ControlPc =
    | Idle
    | Check1 | Check2 | Stamp | Check3 | Check4
    | AskArmed | AskRunning | AskStopAll | PublishBegin
    | PublishStore | Notify | AskNotified
    | Judge
    | Asking(request: Request)
    | Switching(request: Request)

  /** The staged row writePair works on. */
  datatype Row = Row(generation: Double, values: seq<Double>, startNs: int, stampNs: int, outgoing: Batch)

  datatype Control = Control(pc: ControlPc, commit: Commit, claimed: bool, terminal: bool, row: Row, reason: Reason)

  /** One batch PairCommit let through. */
  datatype Admission = Admission(adopted: Adopted, batch: Batch)

  // ----- the send thread

  datatype After = ToWatch | ToSettle | ToPerform | ToTop

  datatype SafetyPc =
    | Top
    | Collect(mid: bool) | Capture(mid: bool) | StopStore(mid: bool) | StopAsk(mid: bool)
    | Requesting(request: Request, next: After)
    | WatchClock | WatchSources
    | Perform | AskAbandoned | GiveUp | Ready1 | Ready2 | Ready3 | Attempt
    | Prepare | Cannot | SafetySend(positions: seq<Double>) | SafetyEnd(ok: bool)
    | AfterSafety | Fault | Done

  datatype LoopPc =
    | TxRunning | TxClock | TxStopAll | TxNotify | TxVersion | TxRead | TxArmed | TxRxFault
    | TxReplies | Decide | Settle | Sleep | Poll

  datatype FramePc =
    | FrameRunning | FrameStopAll | FrameSources
    | FrameVersion | FrameRx | FrameClock | FrameStamp | FrameSend
    | FrameFail | FrameEnd

  datatype TxPc = InSafety(safety: SafetyPc) | InLoop(loop: LoopPc) | InFrames(frame: FramePc)

  /** The cached batch, the version noted for it, and the running read. */
  datatype Box = Box(cache: Batch, observed: nat, version: nat, reader: Reader<Word>, cached: nat)

  datatype View = View(now: int, seen: Seen, stop: Stop, staleDetected: bool, evaluated: int, captured: seq<int>)

  /** The batch being sent. */
  datatype Job = Job(commands: seq<Command>, resend: bool, sent: nat, sendAt: int, before: int, failed: bool)

  /** What the last ready() check saw. */
  datatype Ready = Ready(hwFault: bool, error: bool)

  datatype Kind = Bootstrap | Normal(generation: nat) | ZeroGainStop | Safety

  /** A control frame that left: its commands, its pre-send clock reading, whether it was the first
      of its batch, and whether a safety request was already registered. */
  datatype Frame = Frame(kind: Kind, commands: seq<Command>, at: int, first: bool, resend: bool,
                         publishedNs: int, requested: bool)

  datatype State = State(
    clock: int, memory: Memory<Word>, flags: Flags, safety: GroupSafety, rx: Rx,
    ctl: Control, accepted: seq<Admission>, published: seq<Batch>,
    pc: TxPc, box: Box, local: Local, view: View, job: Job, ready: Ready, resends: nat,
    wire: seq<Frame>, safetyTries: seq<bool>)

  // ----- what a step may choose

  datatype Operation = Write | Claim | Release

  /** `t` and `u` are clock readings; `yes` is a foreign call's result. */
  datatype Choice = Choice(t: int, u: int, yes: bool, operation: Operation, generation: Double,
                           values: seq<Double>, batch: Batch, positions: seq<Double>)

  function LastSequence(published: seq<Batch>): nat {
    if published == [] || published[|published| - 1] == [] then 0
    else published[|published| - 1][0].sequence
  }

  predicate ValidChoice(c: Config, s: State, ch: Choice) {
    && s.clock <= ch.t <= ch.u
    && |ch.values| == c.axes * FIELDS && |ch.positions| == c.axes
    && |ch.batch| == c.axes > 0 && LastSequence(s.published) < ch.batch[0].sequence
    && (forall i | 0 <= i < c.axes :: ch.batch[i].sequence == ch.batch[0].sequence)
  }

  // ----- control steps

  predicate Abnormal(r: Reason) {
    r.InvalidGeneration? || r.Rollback? || r.Gap? || r.InvalidBatch? || r.LatchedNonzero? ||
    r.StartupExpired? || r.PublishFailed?
  }

  function BeginOperation(c: Config, s: State, ch: Choice): State {
    var ctl := s.ctl;
    match ch.operation
    case Write =>
      if c.timing.group then
        s.(clock := ch.t,
           ctl := ctl.(row := ctl.row.(generation := ch.generation, values := ch.values, startNs := ch.t),
                       pc := Check1))
      else s.(ctl := ctl.(row := ctl.row.(outgoing := ch.batch), pc := AskArmed))
    case Claim =>
      if ctl.terminal || s.safety.feedbackStopped || ctl.claimed then s else s.(ctl := ctl.(claimed := true))
    case Release =>
      if !ctl.claimed then s
      else s.(clock := ch.u, ctl := ctl.(pc := Switching(Request(ModeStop, ch.t, ch.u, 0))))
  }

  /** The inspections of writePair, each behind its own look at the stop latch. */
  function InspectAt(c: Config, stopped: bool, ctl: Control, now: int, next: ControlPc): Control {
    if stopped then ctl.(reason := FeedbackPending, pc := Judge)
    else if !ctl.claimed then ctl.(reason := NotClaimed, pc := Judge)
    else
      var (commit, reason) := Inspection(c.bounds, ctl.commit, ctl.row.generation, ctl.row.values, now);
      ctl.(commit := commit, reason := reason, pc := if reason == Accepted then next else Judge)
  }

  function Admit(s: State): State
    requires IsGeneration(s.ctl.row.generation)
  {
    var ctl := s.ctl;
    var adopted := Adopted(Generation(ctl.row.generation), ctl.row.values, ctl.row.stampNs, ctl.commit.latched);
    s.(ctl := ctl.(commit := Accept(ctl.commit, ctl.row.generation), reason := Accepted, pc := AskArmed),
       accepted := s.accepted + [Admission(adopted, ctl.row.outgoing)])
  }

  function CheckStep(c: Config, s: State, ch: Choice): (s': State)
    requires |s.ctl.row.values| == c.axes * FIELDS
    ensures s' == s.(clock := s'.clock, ctl := s'.ctl, accepted := s'.accepted)
    ensures !s.ctl.pc.Check4? ==> s'.accepted == s.accepted
    ensures s'.ctl.row.values == s.ctl.row.values
  {
    var ctl, row, stopped := s.ctl, s.ctl.row, s.safety.feedbackStopped;
    match ctl.pc
    case Check1 => s.(ctl := InspectAt(c, stopped, ctl, row.startNs, Check2))
    case Check2 => s.(ctl := if stopped then ctl.(reason := FeedbackPending, pc := Judge) else ctl.(pc := Stamp))
    case Stamp =>
      if !IsGeneration(row.generation) then s
      else s.(clock := ch.t,
              ctl := ctl.(row := row.(stampNs := ch.t,
                                      outgoing := BatchOf(row.values, c.axes, Generation(row.generation), ch.t)),
                          pc := Check3))
    case Check3 => s.(ctl := InspectAt(c, stopped, ctl, row.stampNs, Check4))
    case Check4 =>
      if stopped then s.(ctl := ctl.(reason := FeedbackPending, pc := Judge))
      else if !IsGeneration(row.generation) then s
      else Admit(s)
    case _ => s
  }

  function AskOr(c: Config, ctl: Control, good: bool, next: ControlPc): Control {
    if good then ctl.(pc := next)
    else if c.timing.group then ctl.(commit := ctl.commit.(latched := true), reason := PublishFailed, pc := Judge)
    else ctl.(pc := Idle)
  }

  function PublishStep(c: Config, s: State, ch: Choice): (s': State)
    ensures s' == s.(memory := s'.memory, flags := s'.flags, ctl := s'.ctl, published := s'.published)
    ensures !s.ctl.pc.PublishBegin? ==> s'.published == s.published
    ensures !s.ctl.pc.PublishBegin? && !s.ctl.pc.PublishStore? ==> s'.memory == s.memory
    ensures s'.ctl.row == s.ctl.row && (Checking(s'.ctl.pc) ==> Checking(s.ctl.pc))
  {
    var m, flags, ctl := s.memory, s.flags, s.ctl;
    match ctl.pc
    case AskArmed => s.(ctl := AskOr(c, ctl, flags.armed != 0, AskRunning))
    case AskRunning => s.(ctl := AskOr(c, ctl, flags.running, AskStopAll))
    case AskStopAll => s.(ctl := AskOr(c, ctl, !flags.stopAll, PublishBegin))
    case PublishBegin =>
      s.(memory := Begin(m, Words(ctl.row.outgoing)), ctl := ctl.(pc := PublishStore),
         published := s.published + [ctl.row.outgoing])
    case PublishStore =>
      if CanStore(m) then s.(memory := Store(m))
      else if CanEnd(m) then s.(memory := End(m), ctl := ctl.(pc := Notify))
      else s
    case Notify =>
      s.(flags := flags.(notifyFailed := flags.notifyFailed || !ch.yes), ctl := ctl.(pc := AskNotified))
    case AskNotified => s.(ctl := AskOr(c, ctl, !flags.notifyFailed, if c.timing.group then Judge else Idle))
    case _ => s
  }

  function JudgeStep(s: State, ch: Choice): (s': State)
    ensures s' == s.(clock := s'.clock, safety := s'.safety, ctl := s'.ctl)
    ensures s'.ctl.row == s.ctl.row && (Checking(s'.ctl.pc) ==> Checking(s.ctl.pc))
  {
    var ctl := s.ctl;
    match ctl.pc
    case Judge =>
      if Abnormal(ctl.reason) then
        s.(clock := ch.u, ctl := ctl.(pc := Asking(Request(HwFault, ch.t, ch.u, 0))))
      else s.(ctl := ctl.(pc := Idle))
    case Asking(r) =>
      s.(safety := RequestStep(s.safety, r),
         ctl := ctl.(pc := if r.step < 3 then Asking(r.(step := r.step + 1)) else Idle))
    case Switching(r) =>
      s.(safety := RequestStep(s.safety, r),
         ctl := if r.step < 3 then ctl.(pc := Switching(r.(step := r.step + 1)))
                else ctl.(claimed := false, terminal := true, commit := ctl.commit.(latched := true), pc := Idle))
    case _ => s
  }

  predicate Checking(pc: ControlPc) {
    pc.Check1? || pc.Check2? || pc.Stamp? || pc.Check3? || pc.Check4?
  }

  predicate Judging(pc: ControlPc) {
    pc.Judge? || pc.Asking? || pc.Switching?
  }

  function ControlStep(c: Config, s: State, ch: Choice): State
    requires |s.ctl.row.values| == c.axes * FIELDS
  {
    if s.ctl.pc.Idle? then BeginOperation(c, s, ch)
    else if Checking(s.ctl.pc) then CheckStep(c, s, ch)
    else if Judging(s.ctl.pc) then JudgeStep(s, ch)
    else PublishStep(c, s, ch)
  }

  // ----- send thread: the safety part of the loop

  function AfterPc(next: After): TxPc {
    match next
    case ToWatch => InSafety(WatchClock)
    case ToSettle => InLoop(Settle)
    case ToPerform => InSafety(Perform)
    case ToTop => InSafety(Top)
  }

  function AfterCollect(mid: bool): After {
    if mid then ToSettle else ToWatch
  }

  /** collectFeedbackStale, the command watchdog and the bookkeeping of their requests. */
  function CollectStep(c: Config, s: State, ch: Choice): (s': State)
    requires s.pc.InSafety?
    ensures s' == s.(clock := s'.clock, safety := s'.safety, view := s'.view, pc := s'.pc)
    ensures s'.safety.result == s.safety.result
  {
    var g, view := s.safety, s.view;
    match s.pc.safety
    case Collect(mid) =>
      if Finished(g.result) then s.(pc := AfterPc(AfterCollect(mid)))
      else s.(view := view.(captured := []), pc := InSafety(Capture(mid)))
    case Capture(mid) =>
      if |view.captured| < |s.rx.stamps| then
        s.(view := view.(captured := view.captured + [s.rx.stamps[|view.captured|]]))
      else
        var stale := !view.staleDetected && CaptureStale(c.timing, s.local.firstSend, view.captured, ch.t);
        s.(clock := ch.t, view := view.(evaluated := ch.t, staleDetected := view.staleDetected || stale),
           pc := if stale then InSafety(StopStore(mid)) else AfterPc(AfterCollect(mid)))
    case StopStore(mid) => s.(safety := g.(feedbackStopped := true), pc := InSafety(StopAsk(mid)))
    case StopAsk(mid) =>
      s.(clock := ch.t,
         pc := InSafety(Requesting(Request(FeedbackStale, view.evaluated, ch.t, 0), AfterCollect(mid))))
    case Requesting(r, next) =>
      s.(safety := RequestStep(g, r),
         pc := if r.step < 3 then InSafety(Requesting(r.(step := r.step + 1), next)) else AfterPc(next))
    case WatchClock =>
      s.(clock := ch.t, pc := InSafety(if s.local.schedule.Expired(c.timing, ch.t) then WatchSources else Perform))
    case WatchSources =>
      if Watchdog in g.sources then s.(pc := InSafety(Perform))
      else s.(clock := ch.u, pc := InSafety(Requesting(Request(Watchdog, ch.t, ch.u, 0), ToPerform)))
    case _ => s
  }

  predicate Collecting(pc: SafetyPc) {
    pc.Collect? || pc.Capture? || pc.StopStore? || pc.StopAsk? || pc.Requesting? || pc.WatchClock? || pc.WatchSources?
  }

  /** performGroupSafety and the loop's top and end around it. */
  function PerformStep(c: Config, s: State, ch: Choice): (s': State)
    requires s.pc.InSafety?
    ensures s' == s.(clock := s'.clock, flags := s'.flags, safety := s.safety.(result := s'.safety.result),
                     ready := s'.ready, pc := s'.pc, wire := s'.wire, safetyTries := s'.safetyTries)
    ensures !s.pc.safety.SafetySend? ==> s'.wire == s.wire && s'.safetyTries == s.safetyTries
  {
    var g, flags := s.safety, s.flags;
    match s.pc.safety
    case Top => s.(pc := if c.timing.group && g.sources != {} then InSafety(Collect(false)) else InLoop(TxRunning))
    case Perform => s.(pc := InSafety(if Finished(g.result) then AfterSafety else AskAbandoned))
    case AskAbandoned => s.(pc := InSafety(if g.abandoned then GiveUp else Ready1))
    case GiveUp => s.(safety := g.(result := Incomplete), pc := InSafety(AfterSafety))
    case Ready1 => s.(pc := InSafety(if g.sources == {} then AfterSafety else Ready2))
    case Ready2 =>
      var hw := HwFault in g.sources;
      s.(ready := Ready(hw, false), pc := InSafety(if hw then Ready3 else Attempt))
    case Ready3 =>
      var error := g.errorNs != 0;
      s.(ready := s.ready.(error := error), pc := InSafety(if error then Attempt else AfterSafety))
    case Attempt =>
      if g.result == Unattempted then s.(safety := g.(result := Processing), pc := InSafety(Prepare))
      else s.(pc := InSafety(AfterSafety))
    case Prepare =>
      var good := ch.yes && forall i | 0 <= i < |ch.positions| :: IsFinite(ch.positions[i]);
      s.(clock := ch.t, pc := InSafety(if good then SafetySend(ch.positions) else Cannot))
    case Cannot => s.(safety := g.(result := CannotGenerate), pc := InSafety(AfterSafety))
    case SafetySend(positions) =>
      s.(clock := ch.t, pc := InSafety(SafetyEnd(ch.yes)), safetyTries := s.safetyTries + [ch.yes],
         wire := if ch.yes then s.wire + [SafetyFrame(positions, ch.t)] else s.wire)
    case SafetyEnd(ok) => s.(safety := g.(result := if ok then Succeeded else SendFailed), pc := InSafety(AfterSafety))
    case AfterSafety =>
      if Finished(g.result) then s.(pc := InSafety(Fault))
      else s.(flags := flags.(notifyFailed := flags.notifyFailed || !ch.yes), pc := InSafety(Top))
    case Fault => s.(flags := flags.(stopAll := true), pc := InSafety(Done))
    case _ => s
  }

  function AllReleased(positions: seq<Double>): (commands: seq<Command>)
    ensures forall i | 0 <= i < |commands| :: ZeroGain(commands[i])
  {
    seq(|positions|, i requires 0 <= i < |positions| => ReleasedAt(positions[i]))
  }

  function SafetyFrame(positions: seq<Double>, at: int): Frame {
    Frame(Safety, AllReleased(positions), at, true, false, 0, true)
  }

  // ----- send thread: taking a batch and deciding

  function RetryDelay(c: Config): int {
    Max(1, c.timing.period / 20)
  }

  /** After a won read the whole batch replaces the cache if its number is new. */
  function TakeBatch(c: Config, s: State, reader: Reader<Word>, batch: Batch): State
    requires batch != []
  {
    var head, schedule := batch[0], s.local.schedule;
    var local := s.local.(snapshotFailed := false, retryDue := 0);
    var box := s.box.(reader := reader, observed := s.box.version);
    if head.sequence == schedule.sequence then s.(local := local, box := box, pc := InLoop(TxArmed))
    else
      s.(local := local.(schedule := schedule.Published(c.timing, head.sequence, head.publishedNs)),
         box := box.(cache := batch, cached := reader.newest), resends := 0, pc := InLoop(TxArmed))
  }

  function ReadStep(c: Config, s: State): (s': State)
    ensures s' == s.(box := s'.box, local := s'.local, resends := s'.resends, pc := s'.pc)
  {
    var reader := Load(s.memory, s.box.reader);
    if reader.phase.Won? then
      var batch := Parse(reader.phase.scratch);
      if batch == [] then s else TakeBatch(c, s, reader, batch)
    else if reader.phase.Lost? then
      s.(box := s.box.(reader := reader), pc := InLoop(TxArmed),
         local := s.local.(snapshotFailed := true, retryDue := s.view.now + RetryDelay(c)))
    else s.(box := s.box.(reader := reader))
  }

  /** A batch that must still be fresh when it leaves: neither bootstrap nor zero-gain stop. */
  predicate Fresh(s: State) {
    s.local.schedule.Active() && !ZeroStop(s.view.stop)
  }

  function SettleStep(c: Config, s: State, ch: Choice): (s': State)
    ensures s' == s.(clock := s'.clock, job := s'.job, pc := s'.pc)
  {
    var view := s.view;
    var group, stop := c.timing.group, view.stop;
    if group && view.staleDetected && stop == NoStop then s.(pc := InSafety(Top))
    else if group && ZeroStop(stop) then
      s.(clock := ch.t, pc := InSafety(Requesting(Request(Watchdog, view.now, ch.t, 0), ToTop)))
    else if stop != NoStop && !ZeroStop(stop) then s.(pc := InSafety(Fault))
    else if !Due(c.timing, s.local, stop, view.now) then s.(pc := InLoop(Sleep))
    else if !ch.yes then s.(pc := InSafety(Fault))
    else
      var commands := if Fresh(s) then Commands(s.box.cache) else AllReleased(ch.positions);
      s.(job := Job(commands, Resend(s.local, view.now), 0, 0, 0, false), pc := InFrames(FrameRunning))
  }

  function LoopStep(c: Config, s: State, ch: Choice): (s': State)
    requires s.pc.InLoop?
    ensures s' == s.(clock := s'.clock, flags := s'.flags, box := s'.box, local := s'.local, view := s'.view,
                     job := s'.job, resends := s'.resends, pc := s'.pc)
    ensures !s.pc.loop.TxRead? ==> s'.local == s.local && s'.resends == s.resends
    ensures !s.pc.loop.TxRead? && !s.pc.loop.TxVersion? ==> s'.box == s.box
    ensures s'.pc.InFrames? ==> s.pc.loop.Settle?
  {
    var flags, box, view := s.flags, s.box, s.view;
    match s.pc.loop
    case TxRunning => s.(pc := if flags.running then InLoop(TxClock) else InSafety(Done))
    case TxClock => s.(clock := ch.t, view := view.(now := ch.t), pc := InLoop(TxStopAll))
    case TxStopAll => s.(pc := if flags.stopAll then InSafety(Done) else InLoop(TxNotify))
    case TxNotify => s.(pc := if flags.notifyFailed then InSafety(Fault) else InLoop(TxVersion))
    case TxVersion =>
      var v := s.memory.version;
      if v != box.observed || s.local.snapshotFailed
      then s.(box := box.(version := v, reader := Start(box.reader)), pc := InLoop(TxRead))
      else s.(box := box.(version := v), pc := InLoop(TxArmed))
    case TxRead => ReadStep(c, s)
    case TxArmed =>
      s.(view := view.(seen := view.seen.(armed := if c.origin != 0 then c.origin else flags.armed)),
         pc := InLoop(TxRxFault))
    case TxRxFault =>
      s.(view := view.(seen := view.seen.(rxFault := flags.rxFault, received := [])), pc := InLoop(TxReplies))
    case TxReplies =>
      var loaded := view.seen.received;
      if |loaded| < |s.rx.stamps| then
        s.(view := view.(seen := view.seen.(received := loaded + [s.rx.stamps[|loaded|]])))
      else s.(pc := InLoop(Decide))
    case Decide =>
      var stop := StopReason(c.timing, s.local, view.seen, view.now);
      s.(view := view.(stop := stop),
         pc := if c.timing.group && (stop == NoStop || ZeroStop(stop)) then InSafety(Collect(true)) else InLoop(Settle))
    case Settle => SettleStep(c, s, ch)
    case Sleep => s.(clock := ch.t, pc := if ch.yes then InLoop(Poll) else InSafety(Fault))
    case Poll => s.(flags := flags.(notifyFailed := flags.notifyFailed || !ch.yes), pc := InSafety(Top))
  }

  // ----- send thread: the frames of one batch

  function Frames(c: Config): nat {
    if c.broadcast then 1 else c.axes
  }

  function NextFrame(c: Config, s: State): Frame {
    var job, schedule := s.job, s.local.schedule;
    Frame(if ZeroStop(s.view.stop) then ZeroGainStop
          else if schedule.Active() then Normal(schedule.sequence) else Bootstrap,
          if c.broadcast || job.sent >= |job.commands| then job.commands else [job.commands[job.sent]],
          job.before, job.sent == 0, job.resend && Fresh(s), schedule.publishedNs, s.safety.sources != {})
  }

  function FinishBatch(c: Config, s: State): State {
    var job, local := s.job, s.local;
    if job.sent == 0 then s
    else
      s.(local := local.(schedule := local.schedule.Sent(c.timing, job.sendAt, job.resend),
                         firstSend := if local.firstSend == 0 then job.sendAt else local.firstSend,
                         bootstrapDue := job.sendAt + c.timing.period),
         resends := if job.resend && Fresh(s) then s.resends + 1 else s.resends)
  }

  function FrameStep(c: Config, s: State, ch: Choice): (s': State)
    requires s.pc.InFrames?
    ensures s' == s.(clock := s'.clock, flags := s'.flags, local := s'.local, job := s'.job, resends := s'.resends,
                     pc := s'.pc, wire := s'.wire)
    ensures !s.pc.frame.FrameSend? ==> s'.wire == s.wire
    ensures !s.pc.frame.FrameEnd? ==> s'.local == s.local && s'.resends == s.resends && s'.pc.InFrames?
    ensures s'.local.schedule.sequence == s.local.schedule.sequence
    ensures s'.local.schedule.publishedNs == s.local.schedule.publishedNs
    ensures s'.job.commands == s.job.commands && s'.job.resend == s.job.resend
  {
    var flags, job, late := s.flags, s.job, Fresh(s) && s.local.schedule.Expired(c.timing, ch.t);
    match s.pc.frame
    case FrameRunning => s.(pc := InFrames(if job.sent < Frames(c) && flags.running then FrameStopAll else FrameEnd))
    case FrameStopAll => s.(pc := InFrames(if flags.stopAll then FrameEnd else FrameSources))
    case FrameSources =>
      s.(pc := InFrames(if c.timing.group && s.safety.sources != {} then FrameEnd else FrameVersion))
    case FrameVersion =>
      s.(pc := InFrames(if Fresh(s) && job.sent == 0 && s.memory.version != s.box.observed then FrameEnd else FrameRx))
    case FrameRx => s.(pc := InFrames(if !ZeroStop(s.view.stop) && flags.rxFault then FrameEnd else FrameClock))
    case FrameClock => s.(clock := ch.t, pc := InFrames(if late then FrameEnd else FrameStamp))
    case FrameStamp =>
      if late then s.(clock := ch.t, pc := InFrames(FrameEnd))
      else s.(clock := ch.t, pc := InFrames(FrameSend),
              job := job.(before := ch.t, sendAt := if job.sendAt == 0 then ch.t else job.sendAt))
    case FrameSend =>
      if ch.yes then
        s.(job := job.(sent := job.sent + 1), pc := InFrames(FrameRunning), wire := s.wire + [NextFrame(c, s)])
      else s.(pc := InFrames(FrameFail))
    case FrameFail => s.(flags := flags.(stopAll := true), job := job.(failed := true), pc := InFrames(FrameEnd))
    case FrameEnd =>
      var next := if ZeroStop(s.view.stop) then (if job.failed || !flags.running || flags.stopAll then Done else Fault)
                  else if job.failed then Done else Top;
      FinishBatch(c, s).(pc := InSafety(next))
  }

  function TxStep(c: Config, s: State, ch: Choice): State {
    match s.pc
    case InSafety(pc) => if Collecting(pc) then CollectStep(c, s, ch) else PerformStep(c, s, ch)
    case InLoop(_) => LoopStep(c, s, ch)
    case InFrames(_) => FrameStep(c, s, ch)
  }

  // ----- everyone else

  datatype Event =
    | Arm | StopRequest | StopOthers | Abandon | NotifyLost | RxTrouble | RxFrame | RxStamp(axis: nat) | ErrorCallback

  /** armWrites, requestStop, another bus's fault, the drain timeout, a lost notification, the
      receive thread's fault latch, its clock reading and its store of it for one axis, and
      on_error, which counts only once something is requested. */
  function EnvironmentStep(s: State, e: Event, ch: Choice): (s': State)
    ensures s' == s.(clock := s'.clock, flags := s'.flags, safety := s'.safety, rx := s'.rx)
    ensures s'.safety == s.safety.(abandoned := s'.safety.abandoned, errorNs := s'.safety.errorNs)
  {
    var flags, g := s.flags, s.safety;
    match e
    case Arm => s.(clock := ch.t, flags := flags.(armed := ch.t))
    case StopRequest => s.(flags := flags.(running := false))
    case StopOthers => s.(flags := flags.(stopAll := true))
    case Abandon => s.(safety := g.(abandoned := true))
    case NotifyLost => s.(flags := flags.(notifyFailed := true))
    case RxTrouble => s.(flags := flags.(rxFault := true))
    case RxFrame => s.(clock := ch.t, rx := s.rx.(read := ch.t))
    case RxStamp(axis) =>
      if axis < |s.rx.stamps| then s.(rx := s.rx.(stamps := s.rx.stamps[axis := s.rx.read])) else s
    case ErrorCallback =>
      if g.sources == {} then s
      else s.(clock := ch.t, safety := g.(errorNs := if g.errorNs == 0 then ch.t else g.errorNs))
  }

  // ----- runs

  datatype Actor = ControlThread | SendThread | Environment(event: Event)

  ghost predicate Step(c: Config, s: State, s': State, who: Actor, ch: Choice) {
    && ValidChoice(c, s, ch) && |s.ctl.row.values| == c.axes * FIELDS
    && s' == (match who
              case ControlThread => ControlStep(c, s, ch)
              case SendThread => TxStep(c, s, ch)
              case Environment(e) => EnvironmentStep(s, e, ch))
  }

  ghost predicate Next(c: Config, s: State, s': State) {
    exists who, ch :: Step(c, s, s', who, ch)
  }

  /** Activation has reset both objects and started the threads; the clock is already positive, so
      zero can stand for "never". */
  ghost predicate Initial(c: Config, s: State) {
    && s.clock > 0 && s.memory == Memory(0, s.memory.words, Resting, []) && |s.memory.words| == WORDS * c.axes
    && s.safety == GroupSafety({}, 0, 0, 0, 0, Unattempted, false, false)
    && s.ctl.pc == Idle && s.ctl.commit == Commit(0, false, false, s.ctl.commit.deadline)
    && !s.ctl.claimed && !s.ctl.terminal && |s.ctl.row.values| == c.axes * FIELDS
    && s.accepted == [] && s.published == [] && s.wire == [] && s.resends == 0 && s.safetyTries == []
    && s.pc == InSafety(Top) && s.ready == Ready(false, false) && s.box == Box(s.box.cache, 0, 0, Reader(Off, 0, 0), 0)
    && s.local == Local(Schedule(0, 0, 0, 0, 0, false), false, 0, s.local.bootstrapDue, 0)
    && !s.view.staleDetected && s.view.now == s.view.evaluated == s.clock
    && s.view.seen.received == s.view.captured == []
    && |s.rx.stamps| == c.axes && s.rx.read <= s.clock
    && (forall a | 0 <= a < c.axes :: 0 <= s.rx.stamps[a] <= s.rx.read)
  }

  ghost predicate StepAt(c: Config, run: seq<State>, i: nat)
    requires i + 1 < |run|
  {
    Next(c, run[i], run[i + 1])
  }

  ghost predicate IsRun(c: Config, run: seq<State>) {
    && ValidConfig(c) && run != [] && Initial(c, run[0])
    && (forall i: nat | i + 1 < |run| :: StepAt(c, run, i))
  }
}
