/**
 What each thread of HilHandover must do while the others leave it alone: a start that may be accepted
 is, and is taken by the next update; a stop is counted and ends the run; a mode changes exactly for its
 reasons; a finished record is handed over and its file frees the controller.
 */
module HilProgress {
  import opened Wrappers
  import opened HilHandover

  type Choices = nat -> Choice

  /** Step i of a stretch in which only one thread runs. */
  ghost predicate StepOf(run: seq<State>, who: Actor, pick: Choices, i: nat)
    requires i + 1 < |run|
  {
    match who
    case UpdateThread => run[i + 1] == UpdateStep(run[i], pick(i))
    case Service(k) => k < |run[i].services| && run[i + 1] == ServiceStep(run[i], k, pick(i))
    case Writer => run[i + 1] == WriterStep(run[i], pick(i))
    case Other => run[i + 1] == OtherStep(run[i], pick(i))
  }

  ghost predicate Alone(run: seq<State>, who: Actor, pick: Choices) {
    forall i: nat | i + 1 < |run| :: StepOf(run, who, pick, i)
  }

  // ----- the services

  /** A start call that holds the lock accepts the start exactly if none is pending, nothing is busy and
      every stop has been applied; the number is the next one and the pending start is this one. */
  lemma StartAnswers(run: seq<State>, k: nat, pick: Choices, i: nat)
    requires Alone(run, Service(k), pick) && i + 5 < |run| && k < |run[i].services| && run[i].services[k].Away?
    requires run[i].lock.Free? && !pick(i).stop
    ensures var s, ch := run[i], pick(i + 4);
      if s.pending.Some? || s.busy then run[i + 2] == s
      else if s.stopCount != s.rtApplied then run[i + 4] == s
      else
        run[i + 5] ==
        s.(clock := ch.t, nextId := s.nextId + 1, pending := Some(Request(s.nextId, ch.t, ch.leaseNs)),
           events := s.events + [Accepted(s.nextId, Outstanding(s))])
  {
    var s := run[i];
    assert StepOf(run, Service(k), pick, i);
    assert run[i + 1] == s.(lock := ByService(k), services := s.services[k := StartBusy]);
    assert StepOf(run, Service(k), pick, i + 1);
    if s.pending.Some? || s.busy {
      assert run[i + 2].services == s.services;
    } else {
      assert run[i + 2] == s.(lock := ByService(k), services := s.services[k := StartStops]);
      assert StepOf(run, Service(k), pick, i + 2);
      assert run[i + 3] == s.(lock := ByService(k), services := s.services[k := StartApplied(s.stopCount)]);
      assert StepOf(run, Service(k), pick, i + 3);
      if s.stopCount != s.rtApplied {
        assert run[i + 4].services == s.services;
      } else {
        AcceptAnswers(run, k, pick, i, s);
      }
    }
  }

  lemma AcceptAnswers(run: seq<State>, k: nat, pick: Choices, i: nat, s: State)
    requires Alone(run, Service(k), pick) && i + 5 < |run| && k < |s.services| && s.services[k].Away? && s.lock.Free?
    requires run[i + 4] == s.(lock := ByService(k), services := s.services[k := StartAccept])
    ensures run[i + 5] ==
      s.(clock := pick(i + 4).t, nextId := s.nextId + 1,
         pending := Some(Request(s.nextId, pick(i + 4).t, pick(i + 4).leaseNs)),
         events := s.events + [Accepted(s.nextId, Outstanding(s))])
  {
    assert StepOf(run, Service(k), pick, i + 4);
    assert run[i + 5].services == s.services;
  }

  /** A stop call clears the pending start and counts. */
  lemma StopIsCounted(run: seq<State>, k: nat, pick: Choices, i: nat)
    requires Alone(run, Service(k), pick) && i + 3 < |run| && k < |run[i].services| && run[i].services[k].Away?
    requires run[i].lock.Free? && pick(i).stop
    ensures run[i + 3] ==
      run[i].(pending := None, stopCount := run[i].stopCount + 1, cancelled := run[i].nextId)
  {
    assert StepOf(run, Service(k), pick, i);
    assert StepOf(run, Service(k), pick, i + 1);
    assert StepOf(run, Service(k), pick, i + 2);
    assert run[i + 3].services == run[i].services;
  }

  // ----- the update

  /** The head of an update with every stop applied already. */
  lemma NothingToStop(run: seq<State>, pick: Choices, i: nat)
    requires Alone(run, UpdateThread, pick) && i + 3 < |run| && run[i].update.pc.Resting? && run[i].update.enabled
    requires !pick(i).stop && run[i].stopCount == run[i].update.applied
    ensures run[i + 3] ==
      run[i].(clock := pick(i).t,
              update := run[i].update.(now := pick(i).t, floor := run[i].cancelled, stops := run[i].stopCount,
                                       pc := AskRecord))
  {
    assert StepOf(run, UpdateThread, pick, i);
    assert StepOf(run, UpdateThread, pick, i + 1);
    assert StepOf(run, UpdateThread, pick, i + 2);
  }

  /** A stop not applied yet is applied first: an active run is released. */
  lemma StopEndsRun(run: seq<State>, pick: Choices, i: nat)
    requires Alone(run, UpdateThread, pick) && i + 4 < |run| && run[i].update.pc.Resting? && run[i].update.enabled
    requires !pick(i).stop && run[i].stopCount != run[i].update.applied
    ensures var s, u, active := run[i], run[i].update, IsActive(run[i].update.mode);
      run[i + 4] ==
      s.(clock := pick(i).t, rtApplied := s.stopCount,
         update := u.(now := pick(i).t, floor := s.cancelled, stops := s.stopCount, applied := s.stopCount,
                      mode := if active then Released else u.mode,
                      releasePending := active || u.releasePending, pc := AskRecord))
  {
    assert StepOf(run, UpdateThread, pick, i);
    assert StepOf(run, UpdateThread, pick, i + 1);
    assert StepOf(run, UpdateThread, pick, i + 2);
    assert StepOf(run, UpdateThread, pick, i + 3);
  }

  /** A pending start is taken exactly with nothing outstanding and the lock free, and becomes the armed
      run whose record has begun. */
  lemma PendingIsTaken(run: seq<State>, pick: Choices, i: nat)
    requires Alone(run, UpdateThread, pick) && i + 5 < |run| && run[i].update.pc.AskRecord?
    ensures var s, u := run[i], run[i].update;
      if IsActive(u.mode) || u.recording || s.recordComplete then
        run[i + 1] == s.(update := u.(pc := AskKeepalive))
      else if !s.lock.Free? then run[i + 2] == s.(update := u.(pc := AskKeepalive))
      else if s.pending.None? then run[i + 3] == s.(update := u.(pc := AskKeepalive))
      else
        run[i + 5] ==
        s.(pending := None, busy := true,
           update := u.(run := s.pending.value, mode := Armed, lastKeepaliveNs := 0, recording := true,
                        releasePending := false, pc := AskKeepalive))
  {
    var s, u := run[i], run[i].update;
    assert StepOf(run, UpdateThread, pick, i);
    if !IsActive(u.mode) && !u.recording && !s.recordComplete {
      assert run[i + 1] == s.(update := u.(pc := TryLock));
      assert StepOf(run, UpdateThread, pick, i + 1);
      if s.lock.Free? {
        assert run[i + 2] == s.(lock := ByUpdate, update := u.(pc := TakePending));
        assert StepOf(run, UpdateThread, pick, i + 2);
        if s.pending.Some? {
          LockedStartIsTaken(run, pick, i + 2);
        }
      }
    }
  }

  lemma LockedStartIsTaken(run: seq<State>, pick: Choices, i: nat)
    requires Alone(run, UpdateThread, pick) && i + 3 < |run| && run[i].update.pc.TakePending? && run[i].pending.Some?
    ensures run[i + 3] ==
      run[i].(lock := Free, pending := None, busy := true,
              update := run[i].update.(run := run[i].pending.value, mode := Armed, lastKeepaliveNs := 0,
                                       recording := true, releasePending := false, pc := AskKeepalive))
  {
    assert StepOf(run, UpdateThread, pick, i);
    assert StepOf(run, UpdateThread, pick, i + 1);
    assert StepOf(run, UpdateThread, pick, i + 2);
  }

  /** A start accepted with nothing in its way runs armed before the next update writes anything. */
  lemma AcceptedStartIsArmed(run: seq<State>, pick: Choices, i: nat)
    requires Alone(run, UpdateThread, pick) && i + 8 < |run| && run[i].update.pc.Resting? && run[i].update.enabled
    requires !pick(i).stop && run[i].stopCount == run[i].update.applied && run[i].lock.Free?
    requires run[i].pending.Some? && !Outstanding(run[i])
    ensures var s, s' := run[i], run[i + 8];
      && s'.update.mode.Armed? && s'.update.run == s.pending.value && s'.update.recording && s'.busy
      && s'.pending.None? && s'.lock.Free? && s'.written == s.written && s'.update.lastKeepaliveNs == 0
  {
    NothingToStop(run, pick, i);
    PendingIsTaken(run, pick, i + 3);
  }

  /** A keepalive counts exactly for the active run, not older than its acceptance and than the last. */
  lemma KeepaliveExtends(s: State, ch: Choice)
    requires s.update.pc.AskKeepalive?
    ensures var u, u' := s.update, UpdateStep(s, ch).update;
      && u' == u.(lastKeepaliveNs := u'.lastKeepaliveNs, pc := Advance)
      && (u'.lastKeepaliveNs != u.lastKeepaliveNs <==>
            (IsActive(u.mode) && ch.yes && s.keepaliveId == u.run.id && s.keepaliveNs >= u.run.acceptedNs &&
             s.keepaliveNs > u.lastKeepaliveNs))
      && (u'.lastKeepaliveNs != u.lastKeepaliveNs ==> u'.lastKeepaliveNs == s.keepaliveNs)
  {
  }

  /** A run that is armed has heard its first keepalive, or drives already. */
  predicate UnderWay(u: Update) {
    HasGains(u.mode) || (u.mode.Armed? && u.lastKeepaliveNs > 0)
  }

  /** The last keepalive is longer ago than the run allows. */
  predicate Late(u: Update) {
    u.now > u.lastKeepaliveNs + u.run.leaseNs
  }

  /** Each mode the checks of a cycle can lead to, by what leads there; `found` is what the checks on
      states, limits and durations found. */
  lemma AdvancesExactly(s: State, ch: Choice)
    requires s.update.pc.Advance?
    ensures var u, u', found := s.update, UpdateStep(s, ch).update, ch.mode;
      && (u'.mode.Armed? <==> u.mode.Armed? && !UnderWay(u) && !found.Aborted?)
      && (u'.mode.Aborted? <==>
            (u.mode.Aborted? || (u.mode.Armed? && found.Aborted?) ||
             (UnderWay(u) && (Late(u) || found.Aborted?))))
      && (u'.mode.Running? <==>
            (UnderWay(u) && !u.mode.Holding? && !Late(u) && !found.Aborted? && !found.Holding? &&
             !found.Released?))
      && (u'.mode.Holding? <==>
            (UnderWay(u) && !Late(u) && !found.Aborted? && (u.mode.Holding? || found.Holding?)))
      && (u'.mode.Released? <==>
            (u.mode.Released? ||
             (UnderWay(u) && !u.mode.Holding? && !Late(u) && !found.Aborted? && found.Released?)))
      && (u'.mode.Idle? <==> u.mode.Idle?)
      && (IsActive(u.mode) && !IsActive(u'.mode) ==> u'.releasePending)
      && (u'.mode == u.mode ==> u'.releasePending == u.releasePending)
      && (u'.pc.AskFinish? <==> u'.mode.Holding?)
      && (u'.pc.Output? <==> !u'.mode.Holding?)
  {
  }

  /** A holding run is released exactly when its finish has been asked for. */
  lemma FinishReleases(s: State, ch: Choice)
    requires s.update.pc.AskFinish?
    ensures UpdateStep(s, ch).update ==
      if s.finishFor == s.update.run.id then s.update.(mode := Released, releasePending := true, pc := Output)
      else s.update.(pc := Output)
  {
  }

  /** A refused write with gains aborts the run in the same cycle and leaves the release pending unless it
      was taken at once; a complete released write clears it; nothing else changes the mode. */
  lemma RefusedGainsAbort(s: State, ch: Choice)
    requires s.update.pc.Output?
    ensures var u, s' := s.update, UpdateStep(s, ch);
      && s'.update.pc.Record?
      && s'.update.mode == (if HasGains(u.mode) && !ch.yes then Aborted else u.mode)
      && (s'.update.releasePending <==>
            if HasGains(u.mode) then (if ch.yes then u.releasePending else ch.stop)
            else u.releasePending && !((u.mode.Released? || u.mode.Aborted?) && ch.yes))
      && s'.written == s.written + [Written(u.mode.Running? || u.mode.Holding?, u.run.id, u.floor,
                                            u.now - u.lastKeepaliveNs, u.run.leaseNs)]
  {
  }

  /** The record goes on until the run has ended, its release is written and its tail is over. */
  lemma RecordEnds(run: seq<State>, pick: Choices, i: nat)
    requires Alone(run, UpdateThread, pick) && i + 2 < |run| && run[i].update.pc.Record?
    ensures var s, u := run[i], run[i].update;
      var over := u.recording && (u.mode.Released? || u.mode.Aborted?) && !u.releasePending && pick(i).stop;
      if over then
        && run[i + 2].recordComplete && run[i + 2].update == u.(recording := false, pc := Resting)
        && |run[i + 2].events| == |s.events| + 1
      else
        && run[i + 1].recordComplete == s.recordComplete && run[i + 1].update == u.(pc := Resting)
        && |run[i + 1].events| == |s.events| + (if u.recording then 1 else 0)
  {
    assert StepOf(run, UpdateThread, pick, i);
    assert StepOf(run, UpdateThread, pick, i + 1);
  }

  /** Deactivation aborts an active run and hands its record over. */
  lemma DeactivationEndsRun(run: seq<State>, pick: Choices, i: nat)
    requires Alone(run, UpdateThread, pick) && i + 2 < |run| && run[i].update.pc.Resting? && run[i].update.enabled
    requires pick(i).stop
    ensures var s, u := run[i], run[i].update;
      && !run[i + 1].update.enabled && !run[i + 1].update.recording && !IsActive(run[i + 1].update.mode)
      && (IsActive(u.mode) ==> run[i + 1].update.mode.Aborted?)
      && (u.recording ==> run[i + 2].recordComplete)
  {
    assert StepOf(run, UpdateThread, pick, i);
    assert StepOf(run, UpdateThread, pick, i + 1);
  }

  /** Activation starts idle with every stop so far applied. */
  lemma ActivationAppliesStops(run: seq<State>, pick: Choices, i: nat)
    requires Alone(run, UpdateThread, pick) && i + 2 < |run| && run[i].update.pc.Resting? && !run[i].update.enabled
    ensures var s' := run[i + 2];
      && s'.update.enabled && s'.update.mode.Idle? && !s'.update.releasePending && s'.update.pc.Resting?
      && s'.update.applied == s'.rtApplied == run[i].stopCount
  {
    assert StepOf(run, UpdateThread, pick, i);
    assert StepOf(run, UpdateThread, pick, i + 1);
  }

  // ----- the file

  /** A finished record whose file is written frees the controller; one whose file fails stays as it is. */
  lemma FileFreesController(run: seq<State>, pick: Choices, i: nat)
    requires Alone(run, Writer, pick) && i + 4 < |run| && run[i].writer.Waiting? && run[i].recordComplete
    ensures if pick(i + 1).yes
            then run[i + 4] == run[i].(recordComplete := false, busy := false, events := run[i + 4].events)
            else run[i + 2] == run[i]
  {
    assert StepOf(run, Writer, pick, i);
    assert StepOf(run, Writer, pick, i + 1);
    if pick(i + 1).yes {
      assert StepOf(run, Writer, pick, i + 2);
      assert StepOf(run, Writer, pick, i + 3);
    }
  }
}
