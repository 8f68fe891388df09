/** Stop beats start, and records change hands safely, over every run of HilHandover. */
module HilRuns {
  import opened HilHandover

  // ----- the mutex

  predicate UpdateHolds(pc: UpdatePc) {
    pc.TakePending? || pc.StoreBusy? || pc.Unlock?
  }

  ghost predicate LockOk(s: State) {
    && (s.lock.ByUpdate? <==> UpdateHolds(s.update.pc))
    && (forall k | 0 <= k < |s.services| :: InService(s.services[k]) <==> s.lock == ByService(k))
  }

  // ----- stops and starts

  /** Which run this update may still serve: after the stops are applied, none below the floor. */
  ghost predicate FloorOk(u: Update, cancelled: nat) {
    && u.floor <= cancelled
    && (u.pc.ApplyStops? && IsActive(u.mode) && u.run.id < u.floor ==> u.applied < u.stops)
    && (!u.pc.Resting? && !u.pc.ActivateStore? && !u.pc.DeactivateDone? && !u.pc.LoadStops? && !u.pc.ApplyStops? ==>
          IsActive(u.mode) ==> u.run.id >= u.floor)
    && ((u.pc.AskFinish? || u.pc.Output?) && HasGains(u.mode) ==> !LeaseExpired(u))
  }

  ghost predicate StopsOk(s: State) {
    var u := s.update;
    && s.rtApplied <= u.applied <= s.stopCount
    && (u.pc.ApplyStops? ==> u.applied <= u.stops <= s.stopCount)
    && (u.pc.StoreApplied? ==> u.stops == u.applied)
    && s.cancelled <= s.nextId && u.run.id < s.nextId
    && (s.pending.Some? ==> s.stopCount == s.rtApplied && s.cancelled <= s.pending.value.id < s.nextId)
    && (IsActive(u.mode) && u.run.id < s.cancelled ==> u.applied < s.stopCount)
    && (u.pc.StoreBusy? ==> s.cancelled <= u.run.id)
  }

  ghost predicate ServiceOk(s: State, pc: ServicePc) {
    && (pc.StartStops? || pc.StartApplied? || pc.StartAccept? ==> s.pending.None? && !s.busy)
    && (pc.StartApplied? ==> pc.stops == s.stopCount)
    && (pc.StartAccept? ==> s.stopCount == s.rtApplied)
    && (pc.StopCount? ==> s.pending.None?)
  }

  ghost predicate ServicesOk(s: State) {
    forall k | 0 <= k < |s.services| :: ServiceOk(s, s.services[k])
  }

  ghost predicate WrittenOk(w: Written) {
    w.gains ==> w.floor <= w.id && w.ageNs <= w.leaseNs
  }

  // ----- records

  ghost predicate RecordOk(s: State) {
    var u := s.update;
    && (Outstanding(s) ==> s.busy)
    && (s.pending.Some? ==> !s.busy)
    && (u.pc.StoreBusy? ==> s.pending.None? && !s.busy)
    && (u.pc.Unlock? ==> s.pending.None? && s.busy && IsActive(u.mode))
    && (IsActive(u.mode) ==> u.recording || u.pc.Unlock?)
    && (s.recordComplete ==> !u.recording && !HandingOver(u.pc))
    && (HandingOver(u.pc) ==> !u.recording && !IsActive(u.mode))
    && (u.pc.TryLock? || UpdateHolds(u.pc) ==> !s.recordComplete && !u.recording && (u.pc.Unlock? || !IsActive(u.mode)))
    && (s.writer.Reading? || s.writer.ClearComplete? ==> s.recordComplete)
    && (s.writer.ClearBusy? ==>
          !s.recordComplete && !u.recording && !HandingOver(u.pc) && !IsActive(u.mode) && !u.pc.Unlock? &&
            !u.pc.StoreBusy?)
  }

  ghost predicate EventOk(e: Event) {
    match e
    case Accepted(_, outstanding) => !outstanding
    case RowStored(shared) => !shared
    case BusyCleared(newer) => !newer
  }

  ghost predicate Inv(s: State) {
    Core(s) && ServicesOk(s) && LogsOk(s.written, s.events)
  }

  // ----- steps

  ghost predicate Core(s: State) {
    LockOk(s) && FloorOk(s.update, s.cancelled) && StopsOk(s) && RecordOk(s)
  }

  ghost predicate LogsOk(written: seq<Written>, events: seq<Event>) {
    && (forall i | 0 <= i < |written| :: WrittenOk(written[i]))
    && (forall i | 0 <= i < |events| :: EventOk(events[i]))
  }

  lemma LifeKeepsCore(s: State, ch: Choice)
    requires Core(s) && PhaseOf(s.update.pc).Life?
    ensures Core(LifeStep(s, ch))
  {
  }

  lemma ApplyKeepsCore(s: State)
    requires Core(s) && s.update.pc.ApplyStops?
    ensures Core(StopStep(s))
  {
  }

  lemma StopKeepsCore(s: State)
    requires Core(s) && PhaseOf(s.update.pc).Stops?
    ensures Core(StopStep(s))
  {
    if s.update.pc.ApplyStops? {
      ApplyKeepsCore(s);
    }
  }

  lemma TakeKeepsCore(s: State)
    requires Core(s) && PhaseOf(s.update.pc).Take?
    ensures Core(TakeStep(s))
  {
  }

  lemma ModeKeepsFloor(s: State, ch: Choice)
    requires FloorOk(s.update, s.cancelled) && (s.update.pc.Advance? || s.update.pc.AskFinish?)
    ensures FloorOk(CycleStep(s, ch).update, s.cancelled)
  {
  }

  lemma OutputKeepsFloor(s: State, ch: Choice)
    requires FloorOk(s.update, s.cancelled) && (s.update.pc.Output? || s.update.pc.Record?)
    ensures FloorOk(CycleStep(s, ch).update, s.cancelled)
  {
  }

  lemma CycleKeepsFloor(s: State, ch: Choice)
    requires FloorOk(s.update, s.cancelled) && PhaseOf(s.update.pc).Cycle?
    ensures FloorOk(CycleStep(s, ch).update, s.cancelled)
  {
    if s.update.pc.Advance? || s.update.pc.AskFinish? {
      ModeKeepsFloor(s, ch);
    } else if s.update.pc.Output? || s.update.pc.Record? {
      OutputKeepsFloor(s, ch);
    }
  }

  lemma StoreRowKeepsRecord(s: State, ch: Choice)
    requires RecordOk(s) && s.update.pc.Record?
    ensures RecordOk(StoreRow(s, ch))
  {
  }

  lemma WriteOutputsKeepsRecord(s: State, ch: Choice)
    requires RecordOk(s) && s.update.pc.Output?
    ensures RecordOk(WriteOutputs(s, ch))
  {
  }

  lemma ModeKeepsRecord(s: State, ch: Choice)
    requires RecordOk(s) && (s.update.pc.Advance? || s.update.pc.AskFinish?)
    ensures RecordOk(CycleStep(s, ch))
  {
  }

  lemma CycleKeepsRecord(s: State, ch: Choice)
    requires RecordOk(s) && PhaseOf(s.update.pc).Cycle?
    ensures RecordOk(CycleStep(s, ch))
  {
    if s.update.pc.Record? {
      StoreRowKeepsRecord(s, ch);
    } else if s.update.pc.Output? {
      WriteOutputsKeepsRecord(s, ch);
    } else if s.update.pc.Advance? || s.update.pc.AskFinish? {
      ModeKeepsRecord(s, ch);
    }
  }

  /** A cycle goes on in order and ends between updates; it never comes near the lock. */
  lemma CycleStaysUnlocked(s: State, ch: Choice)
    requires PhaseOf(s.update.pc).Cycle?
    ensures InCycle(CycleStep(s, ch).update.pc)
  {
  }

  predicate InCycle(pc: UpdatePc) {
    pc.Advance? || pc.AskFinish? || pc.Output? || pc.Record? || pc.Complete? || pc.Resting?
  }

  lemma CycleKeepsCore(s: State, ch: Choice)
    requires Core(s) && PhaseOf(s.update.pc).Cycle?
    ensures Core(CycleStep(s, ch))
  {
    CycleStaysUnlocked(s, ch);
    CycleKeepsFloor(s, ch);
    CycleKeepsRecord(s, ch);
  }

  lemma CycleKeepsLogs(s: State, ch: Choice)
    requires Core(s) && LogsOk(s.written, s.events) && PhaseOf(s.update.pc).Cycle?
    ensures LogsOk(CycleStep(s, ch).written, CycleStep(s, ch).events)
  {
  }

  /** What the update thread may change under a service's feet. */
  lemma UpdateKeepsServices(s: State, ch: Choice)
    requires Core(s) && ServicesOk(s)
    ensures ServicesOk(UpdateStep(s, ch))
  {
    var s' := UpdateStep(s, ch);
    forall k | 0 <= k < |s'.services|
      ensures ServiceOk(s', s'.services[k])
    {
      assert ServiceOk(s, s.services[k]);
    }
  }

  lemma UpdateKeepsInv(s: State, ch: Choice)
    requires Inv(s)
    ensures Inv(UpdateStep(s, ch))
  {
    UpdateKeepsServices(s, ch);
    match PhaseOf(s.update.pc)
    case Life => LifeKeepsCore(s, ch);
    case Stops => StopKeepsCore(s);
    case Take => TakeKeepsCore(s);
    case Cycle =>
      CycleKeepsCore(s, ch);
      CycleKeepsLogs(s, ch);
  }

  lemma ServiceKeepsLock(s: State, k: nat, ch: Choice)
    requires LockOk(s) && k < |s.services|
    ensures LockOk(ServiceStep(s, k, ch))
  {
  }

  lemma ServiceKeepsCore(s: State, k: nat, ch: Choice)
    requires Core(s) && k < |s.services| && ServiceOk(s, s.services[k]) && LogsOk(s.written, s.events)
    ensures Core(ServiceStep(s, k, ch))
    ensures LogsOk(ServiceStep(s, k, ch).written, ServiceStep(s, k, ch).events)
    ensures ServiceOk(ServiceStep(s, k, ch), ServiceStep(s, k, ch).services[k])
  {
    ServiceKeepsLock(s, k, ch);
  }

  lemma ServiceKeepsInv(s: State, k: nat, ch: Choice)
    requires Inv(s) && k < |s.services|
    ensures Inv(ServiceStep(s, k, ch))
  {
    var s' := ServiceStep(s, k, ch);
    ServiceKeepsCore(s, k, ch);
    forall j | 0 <= j < |s'.services|
      ensures ServiceOk(s', s'.services[j])
    {
      assert ServiceOk(s, s.services[j]);
      assert j != k ==> s'.services[j] == s.services[j];
    }
  }

  lemma WriterKeepsInv(s: State, ch: Choice)
    requires Inv(s)
    ensures Inv(WriterStep(s, ch))
  {
  }

  lemma NextKeepsInv(s: State, s': State)
    requires Inv(s) && Next(s, s')
    ensures Inv(s')
  {
    var who, ch :| Step(s, s', who, ch);
    match who
    case UpdateThread => UpdateKeepsInv(s, ch);
    case Service(k) => ServiceKeepsInv(s, k, ch);
    case Writer => WriterKeepsInv(s, ch);
    case Other =>
  }

  lemma InitialInv(s: State)
    requires Initial(s)
    ensures Inv(s)
  {
  }

  lemma {:induction false} RunKeepsInv(run: seq<State>, i: nat)
    requires IsRun(run) && i < |run|
    ensures Inv(run[i])
  {
    if i == 0 {
      InitialInv(run[0]);
    } else {
      RunKeepsInv(run, i - 1);
      assert StepAt(run, i - 1);
      NextKeepsInv(run[i - 1], run[i]);
    }
  }

  // ----- what holds in every run

  /** A pending start means that every stop so far has been applied. */
  lemma PendingMeansStopsApplied(run: seq<State>, i: nat)
    requires IsRun(run) && i < |run| && run[i].pending.Some?
    ensures run[i].stopCount == run[i].rtApplied == run[i].update.applied
    ensures run[i].cancelled <= run[i].pending.value.id
  {
    RunKeepsInv(run, i);
  }

  /** Rows are never stored while the writer may read them, no start is accepted while a run or its
      record is outstanding, and clearing busy_ never hits a newer run; gains are only ever written
      under an unexpired lease and for a run that no stop before this update has cancelled. */
  lemma RecordsChangeHandsSafely(run: seq<State>, i: nat, k: nat)
    requires IsRun(run) && i < |run|
    ensures k < |run[i].events| ==> EventOk(run[i].events[k])
    ensures k < |run[i].written| ==> WrittenOk(run[i].written[k])
  {
    RunKeepsInv(run, i);
  }

  /** Between two updates. */
  predicate Between(pc: UpdatePc) {
    pc.Resting? || pc.ActivateStore? || pc.DeactivateDone?
  }

  /** Nothing is written any more by an update in this position. */
  predicate Spent(pc: UpdatePc) {
    Between(pc) || pc.Record? || pc.Complete?
  }

  /** Entries from `from` on belong to updates that began with at least `floor` cancelled. */
  ghost predicate WrittenSince(from: nat, floor: nat, written: seq<Written>) {
    forall i | from <= i < |written| :: floor <= written[i].floor
  }

  /** Entries from `from` on, past and to come, belong to updates that began with `floor` cancelled. */
  ghost predicate Since(from: nat, floor: nat, s: State) {
    && floor <= s.cancelled && WrittenSince(from, floor, s.written)
    && (|s.written| < from || Spent(s.update.pc) || floor <= s.update.floor)
  }

  lemma LifeStaysSince(from: nat, floor: nat, s: State, ch: Choice)
    requires Since(from, floor, s) && PhaseOf(s.update.pc).Life?
    ensures Since(from, floor, LifeStep(s, ch))
  {
  }

  lemma StopStaysSince(from: nat, floor: nat, s: State)
    requires Since(from, floor, s) && PhaseOf(s.update.pc).Stops?
    ensures Since(from, floor, StopStep(s))
  {
  }

  lemma TakeStaysSince(from: nat, floor: nat, s: State)
    requires Since(from, floor, s) && PhaseOf(s.update.pc).Take?
    ensures Since(from, floor, TakeStep(s))
  {
  }

  /** The one entry of an update still under way at the start is the one before `from`. */
  lemma OutputStaysSince(from: nat, floor: nat, s: State, ch: Choice)
    requires Since(from, floor, s) && s.update.pc.Output?
    ensures Since(from, floor, WriteOutputs(s, ch))
  {
  }

  lemma CycleStaysSince(from: nat, floor: nat, s: State, ch: Choice)
    requires Since(from, floor, s) && PhaseOf(s.update.pc).Cycle?
    ensures Since(from, floor, CycleStep(s, ch))
  {
    if s.update.pc.Output? {
      OutputStaysSince(from, floor, s, ch);
    }
  }

  lemma UpdateStaysSince(from: nat, floor: nat, s: State, ch: Choice)
    requires Since(from, floor, s)
    ensures Since(from, floor, UpdateStep(s, ch))
  {
    match PhaseOf(s.update.pc)
    case Life => LifeStaysSince(from, floor, s, ch);
    case Stops => StopStaysSince(from, floor, s);
    case Take => TakeStaysSince(from, floor, s);
    case Cycle => CycleStaysSince(from, floor, s, ch);
  }

  lemma ServiceStaysSince(from: nat, floor: nat, s: State, k: nat, ch: Choice)
    requires Since(from, floor, s) && s.cancelled <= s.nextId && k < |s.services|
    ensures Since(from, floor, ServiceStep(s, k, ch))
  {
  }

  lemma OthersStaySince(from: nat, floor: nat, s: State, ch: Choice)
    requires Since(from, floor, s)
    ensures Since(from, floor, WriterStep(s, ch)) && Since(from, floor, OtherStep(s, ch))
  {
  }

  lemma NextStaysSince(from: nat, floor: nat, s: State, s': State)
    requires Since(from, floor, s) && s.cancelled <= s.nextId && Next(s, s')
    ensures Since(from, floor, s')
  {
    var who, ch :| Step(s, s', who, ch);
    OthersStaySince(from, floor, s, ch);
    match who
    case UpdateThread => UpdateStaysSince(from, floor, s, ch);
    case Service(k) => ServiceStaysSince(from, floor, s, k, ch);
    case Writer =>
    case Other =>
  }

  /** The first entry of an update that begins after this instant: the next one, or the one after it
      while an update is under way. */
  function FirstLater(s: State): nat {
    |s.written| + (if Spent(s.update.pc) then 0 else 1)
  }

  lemma {:induction false} RunStaysSince(run: seq<State>, i: nat, j: nat)
    requires IsRun(run) && i <= j < |run|
    ensures Since(FirstLater(run[i]), run[i].cancelled, run[j])
    decreases j
  {
    if i < j {
      RunStaysSince(run, i, j - 1);
      RunKeepsInv(run, j - 1);
      assert StepAt(run, j - 1);
      NextStaysSince(FirstLater(run[i]), run[i].cancelled, run[j - 1], run[j]);
    }
  }

  /** Stop beats start. Once a stop has counted (it has, when requestStop returns), every run
      number handed out before it is cancelled, and no update that begins later writes gains for
      one of them; the one that may be under way writes one more time at most. */
  lemma StopBeatsStart(run: seq<State>, i: nat, j: nat, k: nat)
    requires IsRun(run) && i <= j < |run| && FirstLater(run[i]) <= k < |run[j].written| && run[j].written[k].gains
    ensures run[i].cancelled <= run[j].written[k].id
  {
    RunStaysSince(run, i, j);
    RunKeepsInv(run, j);
    assert WrittenOk(run[j].written[k]);
  }

  /** The step that counts a stop cancels all numbers handed out so far: the pending start and
      whatever run is active included. */
  lemma StopCancelsEverythingAccepted(s: State, k: nat, ch: Choice)
    requires Inv(s) && k < |s.services| && s.services[k].StopCount?
    ensures var s' := ServiceStep(s, k, ch);
      s'.cancelled == s'.nextId && s'.pending.None? && s'.update.run.id < s'.cancelled && s'.stopCount > s.stopCount
  {
    assert ServiceOk(s, s.services[k]);
  }
}
