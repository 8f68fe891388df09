/**
 The start, stop, keepalive and record protocol of HilTrajectoryController
 (src/hil_trajectory_controller.cpp): the update thread, any number of service calls and the file
 writer, interleaved at every access to a shared atomic. Work done under start_mutex_ is split the
 same way, with the holder of the mutex as part of the state; update() only ever tries the lock.

 Run numbers and stop counts are unbounded. What a cycle computes from positions, velocities and
 parameters is free: any reason to end a run may apply at any time.
 */
module HilHandover {
  import opened Wrappers

  datatype Request = Request(id: nat, acceptedNs: int, leaseNs: int)

  datatype Mode = Idle | Armed | Running | Holding | Released | Aborted

  predicate IsActive(m: Mode) {
    m.Armed? || m.Running? || m.Holding?
  }

  predicate HasGains(m: Mode) {
    m.Running? || m.Holding?
  }

  datatype Holder = Free | ByUpdate | ByService(k: nat)

  // ----- update(), on_activate() and on_deactivate()

  datatype UpdatePc =
    | Resting
    | LoadStops | ApplyStops | StoreApplied
    | AskRecord | TryLock | TakePending | StoreBusy | Unlock
    | AskKeepalive | Advance | AskFinish
    | Output | Record | Complete
    | DeactivateDone | ActivateStore

  datatype Update = Update(
    pc: UpdatePc, enabled: bool, mode: Mode, run: Request, applied: nat, stops: nat, recording: bool,
    now: int, lastKeepaliveNs: int, releasePending: bool, floor: nat)

  // ----- requestStart() and requestStop()

  datatype ServicePc =
    | Away
    | StartBusy | StartStops | StartApplied(stops: nat) | StartAccept
    | StopClear | StopCount

  predicate InService(pc: ServicePc) {
    !pc.Away?
  }

  // ----- writeCompletedRecord()

  datatype WriterPc = Waiting | Reading | ClearComplete | ClearBusy

  // ----- history: what each thread did, and what it must not have met

  /** One write of the five command interfaces: with gains or not, for which run, `floor` is the
      first run number not cancelled by a stop when this update began. */
  datatype Written = Written(gains: bool, id: nat, floor: nat, ageNs: int, leaseNs: int)

  datatype Event =
    | Accepted(id: nat, outstanding: bool)   // a start was accepted; was a run or record outstanding?
    | RowStored(shared: bool)                // a row was stored; could the writer read it?
    | BusyCleared(newer: bool)               // the writer cleared busy_; was there a newer run?

  datatype State = State(
    clock: int, lock: Holder, pending: Option<Request>, nextId: nat, stopCount: nat, rtApplied: nat,
    busy: bool, recordComplete: bool, finishFor: nat, keepaliveId: nat, keepaliveNs: int,
    update: Update, services: seq<ServicePc>, writer: WriterPc,
    cancelled: nat, written: seq<Written>, events: seq<Event>)

  /** The record is finished but not yet handed over. */
  predicate HandingOver(pc: UpdatePc) {
    pc.Complete? || pc.DeactivateDone?
  }

  /** A run or its record is still with the update thread or the writer. */
  predicate Outstanding(s: State) {
    IsActive(s.update.mode) || s.update.recording || HandingOver(s.update.pc) || s.recordComplete || !s.writer.Waiting?
  }

  datatype Choice = Choice(t: int, yes: bool, mode: Mode, stop: bool, leaseNs: int, id: nat)

  // ----- the update thread

  function EndRun(u: Update, mode: Mode): Update {
    u.(mode := mode, releasePending := true)
  }

  function BeginUpdate(s: State, ch: Choice): State {
    s.(clock := ch.t, update := s.update.(now := ch.t, floor := s.cancelled, pc := LoadStops))
  }

  /** The lease of the applied request has run out. */
  predicate LeaseExpired(u: Update) {
    u.now - u.lastKeepaliveNs > u.run.leaseNs
  }

  /** Steps three to six of a cycle: the mode after it, given what its checks found. */
  function NextMode(u: Update, found: Mode): Mode {
    match u.mode
    case Armed =>
      if u.lastKeepaliveNs > 0 then
        (if found.Aborted? || LeaseExpired(u) then Aborted else if found.Holding? || found.Released? then found
         else Running)
      else if found.Aborted? then Aborted else Armed
    case Running =>
      if LeaseExpired(u) || found.Aborted? then Aborted
      else if found.Holding? || found.Released? then found else Running
    case Holding => if LeaseExpired(u) || found.Aborted? then Aborted else Holding
    case _ => u.mode
  }

  function AdvanceMode(u: Update, found: Mode): (u': Update)
    ensures u' == u.(mode := u'.mode, releasePending := u'.releasePending)
    ensures IsActive(u'.mode) ==> IsActive(u.mode) && (HasGains(u'.mode) ==> !LeaseExpired(u))
  {
    var mode := NextMode(u, found);
    if mode == u.mode then u else if IsActive(mode) then u.(mode := mode) else EndRun(u, mode)
  }

  /** `yes`: every interface took its value. A refused write with gains ends the run at once, with a
      release that may also be refused (`stop`). */
  function WriteOutputs(s: State, ch: Choice): (s': State)
    ensures s' == s.(update := s.update.(mode := s'.update.mode, releasePending := s'.update.releasePending,
                                         pc := Record),
                     written := s'.written)
    ensures IsActive(s'.update.mode) ==> s'.update.mode == s.update.mode
  {
    var u := s.update;
    var entry := Written(HasGains(u.mode), u.run.id, u.floor, u.now - u.lastKeepaliveNs, u.run.leaseNs);
    var u' := if HasGains(u.mode) && !ch.yes then EndRun(u, Aborted).(releasePending := ch.stop)
              else if (u.mode.Released? || u.mode.Aborted?) && ch.yes then u.(releasePending := false) else u;
    s.(update := u'.(pc := Record), written := s.written + [entry])
  }

  /** `stop`: the tail of the record is over. */
  function StoreRow(s: State, ch: Choice): (s': State)
    ensures s' == s.(update := s.update.(recording := s'.update.recording, pc := s'.update.pc), events := s'.events)
    ensures s'.update.pc.Resting? || s'.update.pc.Complete?
  {
    var u := s.update;
    if !u.recording then s.(update := u.(pc := Resting))
    else
      var over := (u.mode.Released? || u.mode.Aborted?) && !u.releasePending && ch.stop;
      s.(update := u.(recording := !over, pc := if over then Complete else Resting),
         events := s.events + [RowStored(!s.writer.Waiting? && !s.writer.ClearBusy?)])
  }

  datatype Phase = Life | Stops | Take | Cycle

  function PhaseOf(pc: UpdatePc): Phase {
    match pc
    case Resting | ActivateStore | DeactivateDone => Life
    case LoadStops | ApplyStops | StoreApplied => Stops
    case AskRecord | TryLock | TakePending | StoreBusy | Unlock => Take
    case _ => Cycle
  }

  /** Between cycles: the next cycle, on_activate or on_deactivate. */
  function LifeStep(s: State, ch: Choice): (s': State)
    ensures s' == s.(clock := s'.clock, rtApplied := s'.rtApplied, recordComplete := s'.recordComplete,
                     update := s'.update)
    ensures s'.update.run == s.update.run
  {
    var u := s.update;
    match u.pc
    case Resting =>
      if !u.enabled then
        s.(update := u.(mode := Idle, releasePending := false, enabled := true, applied := s.stopCount,
                        pc := ActivateStore))
      else if ch.stop then
        s.(update := (if IsActive(u.mode) then EndRun(u, Aborted) else u).(
             enabled := false, recording := false, pc := if u.recording then DeactivateDone else Resting))
      else BeginUpdate(s, ch)
    case ActivateStore => s.(rtApplied := u.applied, update := u.(pc := Resting))
    case DeactivateDone => s.(recordComplete := true, update := u.(pc := Resting))
    case _ => s
  }

  /** Step one of a cycle: stops first. */
  function StopStep(s: State): (s': State)
    ensures s' == s.(rtApplied := s'.rtApplied, update := s'.update)
  {
    var u := s.update;
    match u.pc
    case LoadStops => s.(update := u.(stops := s.stopCount, pc := ApplyStops))
    case ApplyStops =>
      if u.stops == u.applied then s.(update := u.(pc := AskRecord))
      else s.(update := (if IsActive(u.mode) then EndRun(u, Released) else u).(applied := u.stops, pc := StoreApplied))
    case StoreApplied => s.(rtApplied := u.stops, update := u.(pc := AskRecord))
    case _ => s
  }

  /** Step two: a pending start, only when nothing is outstanding and the lock is free. */
  function TakeStep(s: State): (s': State)
    ensures s' == s.(lock := s'.lock, pending := s'.pending, busy := s'.busy, update := s'.update)
  {
    var u := s.update;
    match u.pc
    case AskRecord =>
      s.(update := u.(pc := if !IsActive(u.mode) && !u.recording && !s.recordComplete then TryLock else AskKeepalive))
    case TryLock =>
      if s.lock.Free? then s.(lock := ByUpdate, update := u.(pc := TakePending))
      else s.(update := u.(pc := AskKeepalive))
    case TakePending =>
      if s.pending.None? then s.(lock := Free, update := u.(pc := AskKeepalive))
      else s.(pending := None, update := u.(run := s.pending.value, pc := StoreBusy))
    case StoreBusy => s.(busy := true, update := u.(mode := Armed, pc := Unlock))
    case Unlock =>
      s.(lock := Free, update := u.(lastKeepaliveNs := 0, recording := true, releasePending := false,
                                    pc := AskKeepalive))
    case _ => s
  }

  /** A keepalive of this run, not older than its acceptance, extends the lease. */
  function HearKeepalive(s: State, ch: Choice): (s': State)
    ensures s' == s.(update := s.update.(lastKeepaliveNs := s'.update.lastKeepaliveNs, pc := Advance))
  {
    var u := s.update;
    var heard := IsActive(u.mode) && ch.yes && s.keepaliveId == u.run.id && s.keepaliveNs >= u.run.acceptedNs;
    var last := if heard && s.keepaliveNs > u.lastKeepaliveNs then s.keepaliveNs else u.lastKeepaliveNs;
    s.(update := u.(lastKeepaliveNs := last, pc := Advance))
  }

  function AdvanceStep(s: State, ch: Choice): (s': State)
    ensures s' == s.(update := s.update.(mode := s'.update.mode, releasePending := s'.update.releasePending,
                                         pc := s'.update.pc))
    ensures IsActive(s'.update.mode) ==> IsActive(s.update.mode)
    ensures s'.update.pc.AskFinish? || s'.update.pc.Output?
  {
    var next := AdvanceMode(s.update, ch.mode);
    s.(update := next.(pc := if next.mode.Holding? then AskFinish else Output))
  }

  function CheckFinish(s: State): (s': State)
    ensures s' == s.(update := s.update.(mode := s'.update.mode, releasePending := s'.update.releasePending,
                                         pc := Output))
    ensures IsActive(s'.update.mode) ==> s'.update.mode == s.update.mode
  {
    var u := s.update;
    s.(update := (if s.finishFor == u.run.id then EndRun(u, Released) else u).(pc := Output))
  }

  /** The rest of a cycle. */
  function CycleStep(s: State, ch: Choice): (s': State)
    ensures s' == s.(recordComplete := s'.recordComplete, update := s'.update, written := s'.written,
                     events := s'.events)
    ensures s'.update.run == s.update.run && s'.update.applied == s.update.applied && s'.update.floor == s.update.floor
    ensures IsActive(s'.update.mode) ==> IsActive(s.update.mode)
  {
    match s.update.pc
    case AskKeepalive => HearKeepalive(s, ch)
    case Advance => AdvanceStep(s, ch)
    case AskFinish => CheckFinish(s)
    case Output => WriteOutputs(s, ch)
    case Record => StoreRow(s, ch)
    case Complete => s.(recordComplete := true, update := s.update.(pc := Resting))
    case _ => s
  }

  function UpdateStep(s: State, ch: Choice): State {
    match PhaseOf(s.update.pc)
    case Life => LifeStep(s, ch)
    case Stops => StopStep(s)
    case Take => TakeStep(s)
    case Cycle => CycleStep(s, ch)
  }

  // ----- the services

  function Leave(s: State, k: nat): State
    requires k < |s.services|
  {
    s.(lock := Free, services := s.services[k := Away])
  }

  function Goto(s: State, k: nat, pc: ServicePc): State
    requires k < |s.services|
  {
    s.(services := s.services[k := pc])
  }

  function ServiceStep(s: State, k: nat, ch: Choice): (s': State)
    requires k < |s.services|
    ensures s' == s.(clock := s'.clock, lock := s'.lock, pending := s'.pending, nextId := s'.nextId,
                     stopCount := s'.stopCount, services := s'.services, cancelled := s'.cancelled, events := s'.events)
    ensures |s'.services| == |s.services| && forall j | 0 <= j < |s.services| && j != k ::
      s'.services[j] == s.services[j]
    ensures if s.services[k].Away? then s.lock.Free? || s' == s
            else InService(s'.services[k]) || s'.lock.Free?
    ensures InService(s'.services[k]) ==> s'.lock == (if s.services[k].Away? then ByService(k) else s.lock)
    ensures s'.services[k].Away? && s' != s ==> s'.lock.Free? && InService(s.services[k])
  {
    match s.services[k]
    case Away =>
      if !s.lock.Free? then s
      else if ch.stop then Goto(s.(lock := ByService(k)), k, StopClear)
      else Goto(s.(lock := ByService(k)), k, StartBusy)
    case StartBusy => if s.pending.Some? || s.busy then Leave(s, k) else Goto(s, k, StartStops)
    case StartStops => Goto(s, k, StartApplied(s.stopCount))
    case StartApplied(stops) => if stops == s.rtApplied then Goto(s, k, StartAccept) else Leave(s, k)
    case StartAccept =>
      Leave(s.(clock := ch.t, nextId := s.nextId + 1, pending := Some(Request(s.nextId, ch.t, ch.leaseNs)),
               events := s.events + [Accepted(s.nextId, Outstanding(s))]), k)
    case StopClear => Goto(s.(pending := None), k, StopCount)
    case StopCount => Leave(s.(stopCount := s.stopCount + 1, cancelled := s.nextId), k)
  }

  // ----- the writer and the remaining non-real-time calls

  /** `yes`: the file was written, or there is nowhere to write it. A failure keeps everything. */
  function WriterStep(s: State, ch: Choice): State {
    match s.writer
    case Waiting => if s.recordComplete then s.(writer := Reading) else s
    case Reading => s.(writer := if ch.yes then ClearComplete else Waiting)
    case ClearComplete => s.(recordComplete := false, writer := ClearBusy)
    case ClearBusy =>
      s.(busy := false, writer := Waiting,
         events := s.events + [BusyCleared(IsActive(s.update.mode) || s.update.recording || s.pending.Some? ||
                                           s.update.pc.StoreBusy? || s.update.pc.Unlock?)])
  }

  function OtherStep(s: State, ch: Choice): State {
    if ch.stop then s.(clock := ch.t, keepaliveId := ch.id, keepaliveNs := ch.t)
    else s.(finishFor := ch.id)
  }

  datatype Actor = UpdateThread | Service(k: nat) | Writer | Other

  ghost predicate Step(s: State, s': State, who: Actor, ch: Choice) {
    && s.clock <= ch.t
    && (match who
        case UpdateThread => s' == UpdateStep(s, ch)
        case Service(k) => k < |s.services| && s' == ServiceStep(s, k, ch)
        case Writer => s' == WriterStep(s, ch)
        case Other => s' == OtherStep(s, ch))
  }

  ghost predicate Next(s: State, s': State) {
    exists who, ch :: Step(s, s', who, ch)
  }

  ghost predicate Initial(s: State) {
    && s.lock.Free? && s.pending.None? && s.nextId == 1 && s.stopCount == 0 && s.rtApplied == 0
    && !s.busy && !s.recordComplete && s.finishFor == 0
    && s.update == Update(Resting, false, Idle, Request(0, 0, 0), 0, 0, false, s.update.now, 0, false, 0)
    && (forall k | 0 <= k < |s.services| :: s.services[k].Away?)
    && s.writer.Waiting? && s.cancelled == 0 && s.written == [] && s.events == []
  }

  ghost predicate StepAt(run: seq<State>, i: nat)
    requires i + 1 < |run|
  {
    Next(run[i], run[i + 1])
  }

  ghost predicate IsRun(run: seq<State>) {
    run != [] && Initial(run[0]) && forall i: nat | i + 1 < |run| :: StepAt(run, i)
  }
}
