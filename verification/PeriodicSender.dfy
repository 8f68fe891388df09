/**
 The periodic send loop of src/bus_streamer.cpp. The clock never goes back; stop requests, replies,
 hook, encoder and bus answer as they like, also between two frames of one cycle.
 */
module PeriodicSenders {
  import opened Wrappers

  datatype Outcome = Sent | SkippedLate | SkippedBurst | ExpiredAfterHook | Partial | Stopped

  datatype Fault =
    | NoFault | FeedbackStale | Temperature | ForbiddenReply | OwnerRequested | EncodeFailed | SendFailed | CommandStale

  datatype Config = Config(period: int, maxFeedbackAge: int, maxCommandAge: int, broadcast: bool, motors: nat,
                           capacity: nat)

  function Expected(c: Config): nat {
    if c.broadcast then 1 else c.motors
  }

  // ----- history

  /** One frame on the bus: its cycle and the clock reading of the check right before it. */
  datatype FrameSent = FrameSent(cycle: nat, stale: bool, check: int)

  /** The first frame of a cycle. */
  datatype Start = Start(time: int, stale: bool)

  function SlotEnd(c: Config, origin: int, cycle: nat): int {
    origin + cycle * c.period + c.period
  }

  /** The slots follow each other without a gap, the first from the start of the loop on. */
  lemma SlotsFollow(c: Config, origin: int, cycle: nat)
    ensures SlotEnd(c, origin, 0) == origin + c.period
    ensures SlotEnd(c, origin, cycle + 1) == SlotEnd(c, origin, cycle) + c.period
  {
  }

  predicate InSlot(c: Config, origin: int, f: FrameSent) {
    f.stale || f.check < SlotEnd(c, origin, f.cycle)
  }

  ghost predicate AllInSlot(c: Config, origin: int, frames: seq<FrameSent>) {
    forall i | 0 <= i < |frames| :: InSlot(c, origin, frames[i])
  }

  /** Half a period between any two starts, except before a final stale stop. */
  ghost predicate Spaced(c: Config, starts: seq<Start>) {
    && (forall i, j | 0 <= i < j < |starts| :: starts[j].stale || starts[j].time >= starts[i].time + c.period / 2)
    && (forall i, j | 0 <= i < j < |starts| :: !starts[i].stale && starts[i].time <= starts[j].time)
  }


  /** How many frames a cycle of each outcome sent. */
  predicate Fits(c: Config, o: Outcome, frames: nat) {
    match o
    case Sent => frames == Expected(c)
    case Partial => 0 < frames < Expected(c)
    case Stopped => frames <= Expected(c)
    case _ => frames == 0
  }

  ghost predicate AllFit(c: Config, outcomes: seq<Outcome>, counts: seq<nat>) {
    |counts| == |outcomes| && forall i | 0 <= i < |outcomes| :: Fits(c, outcomes[i], counts[i])
  }

  /** Only the last cycle can be a stopped one. */
  ghost predicate StopIsLast(outcomes: seq<Outcome>) {
    forall i | 0 <= i < |outcomes| - 1 :: outcomes[i] != Stopped
  }

  datatype Tally = Tally(sent: nat, skipped: nat, partial: nat, stopped: nat)

  function Plus(t: Tally, o: Outcome): Tally {
    match o
    case Sent => t.(sent := t.sent + 1)
    case Partial => t.(partial := t.partial + 1)
    case Stopped => t.(stopped := t.stopped + 1)
    case _ => t.(skipped := t.skipped + 1)
  }

  function TallyOf(outcomes: seq<Outcome>): Tally {
    if outcomes == [] then Tally(0, 0, 0, 0) else Plus(TallyOf(outcomes[..|outcomes| - 1]), outcomes[|outcomes| - 1])
  }

  /** Every cycle is counted exactly once, and at most one of them as stopped. */
  lemma {:induction false} TallyAddsUp(outcomes: seq<Outcome>)
    ensures var t := TallyOf(outcomes); t.sent + t.skipped + t.partial + t.stopped == |outcomes|
    ensures StopIsLast(outcomes) ==> TallyOf(outcomes).stopped <= 1
    ensures Stopped !in outcomes ==> TallyOf(outcomes).stopped == 0
    ensures StopIsLast(outcomes) && Stopped in outcomes ==> outcomes[|outcomes| - 1] == Stopped
  {
    if outcomes != [] {
      TallyAddsUp(outcomes[..|outcomes| - 1]);
    }
  }

  lemma TallyGrows(outcomes: seq<Outcome>, o: Outcome)
    ensures TallyOf(outcomes + [o]) == Plus(TallyOf(outcomes), o)
  {
    assert (outcomes + [o])[..|outcomes|] == outcomes;
  }

  /** What one cycle finds. `news`: when a new reply of each motor arrived, if one did. `written`:
      when the owner last wrote commands, zero for never. */
  datatype Findings = Findings(news: seq<Option<int>>, temperature: bool, forbidden: bool, written: int)

  /** How the others answer in one cycle: the hook, the encoder (or the motor it fails for), whether a
      stop is requested when frame i is checked and whether the bus takes it, and whether another bus
      has stopped when the window has closed. */
  datatype Answers = Answers(hook: bool, unencoded: Option<nat>, stops: nat -> bool, takes: nat -> bool, after: bool)

  // ----- what one cycle must come to

  /** Some motor has not answered for too long, counted from its last reply or from the first send. */
  predicate SilentAt(c: Config, sentAny: bool, firstSend: int, replies: seq<Option<int>>, now: int) {
    sentAny && exists i | 0 <= i < |replies| ::
      now > (if replies[i].Some? then replies[i].value else firstSend) + c.maxFeedbackAge
  }

  /** The owner watches command ages, has written, and not recently. */
  predicate StaleAt(c: Config, written: int, now: int) {
    c.maxCommandAge > 0 && written != 0 && now > written + c.maxCommandAge
  }

  /** Frame i may leave at its check: no stop, and the slot is open unless this is the stale stop. */
  predicate Goes(c: Config, origin: int, k: nat, stale: bool, a: Answers, check: int, i: nat) {
    !a.stops(i) && (stale || check < SlotEnd(c, origin, k))
  }

  /** Exactly the frames before the first that may not leave or is not taken have left. */
  predicate FramesAre(c: Config, origin: int, k: nat, stale: bool, a: Answers, checks: seq<int>, count: nat) {
    && count <= Expected(c) && |checks| == (if count == Expected(c) then count else count + 1)
    && (forall i | 0 <= i < count :: Goes(c, origin, k, stale, a, checks[i], i) && a.takes(i))
    && (count < Expected(c) ==> !Goes(c, origin, k, stale, a, checks[count], count) || !a.takes(count))
  }

  /** A frame that might leave was refused. */
  predicate Refused(c: Config, origin: int, k: nat, stale: bool, a: Answers, checks: seq<int>, count: nat)
    requires FramesAre(c, origin, k, stale, a, checks, count)
  {
    count < Expected(c) && Goes(c, origin, k, stale, a, checks[count], count)
  }

  function OutcomeOf(c: Config, origin: int, k: nat, stale: bool, a: Answers, checks: seq<int>, count: nat): Outcome
    requires FramesAre(c, origin, k, stale, a, checks, count)
  {
    if stale || Refused(c, origin, k, stale, a, checks, count) then Stopped
    else if count == Expected(c) then Sent
    else if a.after then Stopped
    else if count == 0 then ExpiredAfterHook else Partial
  }

  /** What a cycle starts from: whether anything was sent, when first and when last. */
  datatype Past = Past(sentAny: bool, firstSend: int, lastSend: int)

  /** The one outcome a cycle that reads the clock `at` deserves, and its frames. */
  predicate Deserves(c: Config, origin: int, k: nat, past: Past, replies: seq<Option<int>>, found: Findings, a: Answers,
                     at: int, checks: seq<int>, outcome: Outcome, count: nat) {
    var stale := StaleAt(c, found.written, at);
    if SilentAt(c, past.sentAny, past.firstSend, replies, at) || found.temperature || found.forbidden then
      outcome == Stopped && count == 0
    else if !stale && at >= SlotEnd(c, origin, k) then outcome == SkippedLate && count == 0
    else if !stale && past.sentAny && at < past.lastSend + c.period / 2 then outcome == SkippedBurst && count == 0
    else if (!stale && !a.hook) || a.unencoded.Some? then outcome == Stopped && count == 0
    else
      && FramesAre(c, origin, k, stale, a, checks, count)
      && outcome == OutcomeOf(c, origin, k, stale, a, checks, count)
  }

  /** A new reply replaces the last one. */
  predicate Heard(before: seq<Option<int>>, news: seq<Option<int>>, after: seq<Option<int>>) {
    |before| == |news| == |after| &&
    forall i | 0 <= i < |after| :: after[i] == if news[i].Some? then news[i] else before[i]
  }

  class PeriodicSender {
    const config: Config
    const origin: int
    var clock: int
    var fault: Fault
    var faultAxis: int
    var stoppedExternally: bool
    var cycles: nat
    var skipped: nat
    var partial: nat
    var framesSent: nat
    var staleFrames: nat
    var cycleCount: nat
    var rows: seq<Outcome>
    var lastReply: seq<Option<int>>
    var sentAny: bool
    var firstSend: int
    var lastSend: int
    var ended: bool
    ghost var outcomes: seq<Outcome>
    ghost var counts: seq<nat>
    ghost var starts: seq<Start>
    ghost var frames: seq<FrameSent>

    ghost predicate Shape()
      reads `lastReply
    {
      config.period > 0 && |lastReply| == config.motors
    }

    /** The statistics are the history's. */
    ghost predicate Accounts()
      reads `cycleCount, `outcomes, `counts, `cycles, `skipped, `partial, `rows, `ended
    {
      && cycleCount == |outcomes|
      && TallyOf(outcomes) == Tally(cycles, skipped, partial, TallyOf(outcomes).stopped)
      && rows == (if |outcomes| <= config.capacity then outcomes else outcomes[..config.capacity])
      && StopIsLast(outcomes) && (Stopped in outcomes ==> ended)
      && AllFit(config, outcomes, counts)
    }

    ghost predicate Timing()
      reads `starts, `frames, `framesSent, `sentAny, `firstSend, `lastSend, `clock
    {
      && Spaced(config, starts) && AllInSlot(config, origin, frames) && framesSent == |frames|
      && (sentAny <==> starts != [])
      && (starts != [] ==> lastSend == starts[|starts| - 1].time && firstSend == starts[0].time && lastSend <= clock)
    }

    /** A cycle of stale commands was started. */
    ghost predicate StaleStarted()
      reads `starts
    {
      starts != [] && starts[|starts| - 1].stale
    }

    ghost predicate Inv()
      reads this
    {
      Shape() && Accounts() && Timing() && (StaleStarted() ==> ended)
    }

    constructor (config: Config, origin: int)
      requires config.period > 0
      ensures Inv() && !ended && this.config == config && this.origin == origin && cycleCount == 0
    {
      this.config, this.origin := config, origin;
      clock, fault, faultAxis, stoppedExternally := origin, NoFault, -1, false;
      cycles, skipped, partial, framesSent, staleFrames, cycleCount := 0, 0, 0, 0, 0, 0;
      rows, lastReply := [], seq(config.motors, _ => None);
      sentAny, firstSend, lastSend, ended := false, 0, 0, false;
      outcomes, counts, starts, frames := [], [], [], [];
    }

    method Now() returns (t: int)
      modifies `clock
      ensures t == clock >= old(clock)
    {
      t := *;
      if t < clock {
        t := clock;
      }
      clock := t;
    }

    method Raise(f: Fault, axis: int)
      modifies `fault, `faultAxis
      ensures fault == f && faultAxis == axis
    {
      fault, faultAxis := f, axis;
    }

    // ----- replies

    function Age(now: int, reply: Option<int>): int
      reads this
    {
      now - (if reply.Some? then reply.value else firstSend)
    }

    /** Take over new replies; the first motor silent for too long stops everything. */
    method TakeReplies(now: int, news: seq<Option<int>>) returns (faulted: bool)
      requires Shape() && |news| == config.motors
      modifies `lastReply, `fault, `faultAxis
      ensures |lastReply| == config.motors
      ensures forall i | 0 <= i < config.motors :: lastReply[i] == if news[i].Some? then news[i] else old(lastReply)[i]
      ensures faulted <==> sentAny && exists i ::
        0 <= i < config.motors && Age(now, lastReply[i]) > config.maxFeedbackAge
      ensures faulted ==> fault == FeedbackStale && 0 <= faultAxis < config.motors
      ensures faulted ==> Age(now, lastReply[faultAxis]) > config.maxFeedbackAge
      ensures faulted ==> forall i | 0 <= i < faultAxis :: Age(now, lastReply[i]) <= config.maxFeedbackAge
      ensures !faulted ==> fault == old(fault) && faultAxis == old(faultAxis)
    {
      faulted := false;
      for i := 0 to config.motors
        invariant |lastReply| == config.motors
        invariant forall j | 0 <= j < config.motors ::
          lastReply[j] == if news[j].Some? && j < i then news[j] else old(lastReply)[j]
        invariant faulted <==> sentAny && exists j :: 0 <= j < i && Age(now, lastReply[j]) > config.maxFeedbackAge
        invariant faulted ==> fault == FeedbackStale && 0 <= faultAxis < i
        invariant faulted ==> Age(now, lastReply[faultAxis]) > config.maxFeedbackAge
        invariant faulted ==> forall j | 0 <= j < faultAxis :: Age(now, lastReply[j]) <= config.maxFeedbackAge
        invariant !faulted ==> fault == old(fault) && faultAxis == old(faultAxis)
      {
        if news[i].Some? {
          lastReply := lastReply[i := news[i]];
        }
        if !sentAny {
          continue;
        }
        if !faulted && Age(now, lastReply[i]) > config.maxFeedbackAge {
          Raise(FeedbackStale, i);
          faulted := true;
        }
      }
    }

    predicate StaleCommand(now: int, written: int) {
      config.maxCommandAge > 0 && written != 0 && now - written > config.maxCommandAge
    }

    // ----- frames

    /** The frames of one cycle: one broadcast, or one per motor. Each goes out right after a check.
        A send error ends it; so does a closed window. */
    method SendFrames(k: nat, stale: bool, answers: Answers)
      returns (count: nat, closed: bool, failed: bool, ghost checks: seq<int>)
      requires Shape() && AllInSlot(config, origin, frames)
      modifies `clock, `frames, `fault, `faultAxis, `lastSend
      ensures FramesAre(config, origin, k, stale, answers, checks, count)
      ensures failed <==> Refused(config, origin, k, stale, answers, checks, count)
      ensures closed <==> count < Expected(config) && !failed
      ensures AllInSlot(config, origin, frames) && |frames| == |old(frames)| + count && old(frames) <= frames
      ensures forall i | 0 <= i < count :: frames[|old(frames)| + i] == FrameSent(k, stale, checks[i])
      ensures forall i | |old(frames)| <= i < |frames| :: frames[i].cycle == k
      ensures forall i | 0 <= i < |checks| :: old(clock) <= checks[i] <= clock
      ensures if count > 0 then old(clock) <= lastSend <= clock else lastSend == old(lastSend)
      ensures clock >= old(clock)
      ensures if failed then fault == SendFailed && faultAxis == (if config.broadcast then -1 else count)
              else fault == old(fault) && faultAxis == old(faultAxis)
    {
      count, closed, failed, checks := 0, false, false, [];
      while count < Expected(config)
        invariant count <= Expected(config) && |checks| == count && clock >= old(clock)
        invariant forall i | 0 <= i < count :: Goes(config, origin, k, stale, answers, checks[i], i) && answers.takes(i)
        invariant AllInSlot(config, origin, frames) && |frames| == |old(frames)| + count && old(frames) <= frames
        invariant forall i | 0 <= i < count :: frames[|old(frames)| + i] == FrameSent(k, stale, checks[i])
        invariant forall i | |old(frames)| <= i < |frames| :: frames[i].cycle == k
        invariant forall i | 0 <= i < |checks| :: old(clock) <= checks[i] <= clock
        invariant if count > 0 then old(clock) <= lastSend <= clock else lastSend == old(lastSend)
        invariant fault == old(fault) && faultAxis == old(faultAxis)
      {
        var check := Now();
        checks := checks + [check];
        if answers.stops(count) || (!stale && check >= SlotEnd(config, origin, k)) {
          closed := true;
          return;
        }
        var time := Now();
        if !answers.takes(count) {
          Raise(SendFailed, if config.broadcast then -1 else count);
          failed := true;
          return;
        }
        frames := frames + [FrameSent(k, stale, check)];
        if count == 0 {
          lastSend := time;
        }
        count := count + 1;
      }
    }

    // ----- one cycle

    /** Put the cycle on record. */
    method Record(o: Outcome, ghost count: nat)
      requires Accounts() && !ended && Fits(config, o, count)
      modifies `rows, `cycleCount, `outcomes, `counts, `cycles, `skipped, `partial, `ended
      ensures Accounts() && outcomes == old(outcomes) + [o] && counts == old(counts) + [count]
      ensures ended == (o == Stopped)
    {
      TallyGrows(outcomes, o);
      if cycleCount < config.capacity {
        rows := rows + [o];
      }
      cycleCount := cycleCount + 1;
      outcomes, counts := outcomes + [o], counts + [count];
      match o {
        case Sent => cycles := cycles + 1;
        case Partial => partial := partial + 1;
        case Stopped => ended := true;
        case _ => skipped := skipped + 1;
      }
    }

    /** Everything before the hook: the outcome if the cycle already ends here. */
    method Before(k: nat, found: Findings) returns (outcome: Option<Outcome>, stale: bool)
      requires Inv() && !ended && |found.news| == config.motors
      modifies `clock, `lastReply, `fault, `faultAxis
      ensures Shape() && Timing() && clock >= old(clock) && Heard(old(lastReply), found.news, lastReply)
      ensures outcome == Some(Stopped) <==>
        SilentAt(config, sentAny, firstSend, lastReply, clock) || found.temperature || found.forbidden
      ensures outcome != Some(Stopped) ==> (stale <==> StaleAt(config, found.written, clock))
      ensures outcome == Some(SkippedLate) <==>
        outcome != Some(Stopped) && !stale && clock >= SlotEnd(config, origin, k)
      ensures outcome == Some(SkippedBurst) <==>
        (outcome != Some(Stopped) && !stale && clock < SlotEnd(config, origin, k) && sentAny &&
         clock < lastSend + config.period / 2)
      ensures outcome.None? || outcome.value in {SkippedLate, SkippedBurst, Stopped}
      ensures outcome == Some(Stopped) ==>
        fault == if SilentAt(config, sentAny, firstSend, lastReply, clock) then FeedbackStale
                 else if found.temperature then Temperature else ForbiddenReply
    {
      var now := Now();
      stale := false;
      var faulted := TakeReplies(now, found.news);
      assert faulted <==> SilentAt(config, sentAny, firstSend, lastReply, now) by {
        assert forall i | 0 <= i < config.motors :: Age(now, lastReply[i]) > config.maxFeedbackAge <==>
          now > (if lastReply[i].Some? then lastReply[i].value else firstSend) + config.maxFeedbackAge;
      }
      if !faulted && found.temperature {
        Raise(Temperature, -1);
        faulted := true;
      }
      if !faulted && found.forbidden {
        Raise(ForbiddenReply, -1);
        faulted := true;
      }
      if faulted {
        return Some(Stopped), false;
      }
      stale := StaleCommand(now, found.written);
      var late := now >= SlotEnd(config, origin, k);
      if !stale && (late || (sentAny && now - lastSend < config.period / 2)) {
        return Some(if late then SkippedLate else SkippedBurst), stale;
      }
      return None, stale;
    }

    /** Count the frames of this cycle, the first at `lastSend`. */
    method Account(stale: bool, count: nat, ghost before: int)
      requires Shape() && AllInSlot(config, origin, frames) && |frames| == framesSent + count && Spaced(config, starts)
      requires (sentAny <==> starts != []) && !StaleStarted()
      requires starts != [] ==> firstSend == starts[0].time && starts[|starts| - 1].time == before <= clock
      requires if count > 0 then lastSend <= clock else lastSend == before
      requires count > 0 && starts != [] ==> before <= lastSend && (stale || before + config.period / 2 <= lastSend)
      modifies `framesSent, `staleFrames, `firstSend, `sentAny, `starts
      ensures Timing() && (StaleStarted() ==> stale)
      ensures starts == if count > 0 then old(starts) + [Start(lastSend, stale)] else old(starts)
      ensures stale ==> staleFrames == count
    {
      framesSent := framesSent + count;
      if stale {
        staleFrames := count;
      }
      if count > 0 {
        SpacedGrows(config, starts, Start(lastSend, stale));
        if !sentAny {
          firstSend, sentAny := lastSend, true;
        }
        starts := starts + [Start(lastSend, stale)];
      }
    }

    /** The hook, unless the commands are stale, and the encoder. */
    method Prepare(stale: bool, answers: Answers) returns (ok: bool)
      modifies `fault, `faultAxis
      ensures ok <==> (stale || answers.hook) && answers.unencoded.None?
      ensures fault == if ok then old(fault) else if !stale && !answers.hook then OwnerRequested else EncodeFailed
    {
      if !stale && !answers.hook {
        Raise(OwnerRequested, -1);
        return false;
      }
      if answers.unencoded.Some? {
        Raise(EncodeFailed, answers.unencoded.value);
        return false;
      }
      return true;
    }

    /** From the frames to the outcome. Stale commands always end the loop. */
    method Transmit(k: nat, stale: bool, answers: Answers)
      returns (outcome: Outcome, count: nat, ghost checks: seq<int>)
      requires Shape() && Timing() && !StaleStarted()
      requires sentAny ==> stale || clock >= lastSend + config.period / 2
      modifies `clock, `frames, `fault, `faultAxis, `lastSend, `framesSent, `staleFrames, `firstSend, `sentAny,
        `starts, `stoppedExternally
      ensures Timing() && Fits(config, outcome, count) && (stale || StaleStarted() ==> outcome == Stopped)
      ensures |frames| == |old(frames)| + count && old(clock) <= clock
      ensures forall i | |old(frames)| <= i < |frames| :: frames[i].cycle == k
      ensures FramesAre(config, origin, k, stale, answers, checks, count)
      ensures outcome == OutcomeOf(config, origin, k, stale, answers, checks, count)
      ensures stale ==> staleFrames == count
      ensures fault == if Refused(config, origin, k, stale, answers, checks, count) then SendFailed
                       else if stale && count == Expected(config) then CommandStale else old(fault)
      ensures outcome == Stopped && fault == old(fault) && fault.NoFault? ==> stoppedExternally
    {
      ghost var before := lastSend;
      var closed, failed;
      count, closed, failed, checks := SendFrames(k, stale, answers);
      Account(stale, count, before);
      if failed {
        return Stopped, count, checks;
      }
      if stale {
        if closed {
          stoppedExternally := true;
        } else {
          Raise(CommandStale, -1);
        }
        return Stopped, count, checks;
      }
      if closed {
        if answers.after {
          stoppedExternally := true;
          return Stopped, count, checks;
        }
        return if count == 0 then ExpiredAfterHook else Partial, count, checks;
      }
      return Sent, count, checks;
    }

    ghost function History(): Past
      reads `sentAny, `firstSend, `lastSend
    {
      Past(sentAny, firstSend, lastSend)
    }

    /** A cycle up to its record. */
    method Attempt(k: nat, found: Findings, answers: Answers)
      returns (outcome: Outcome, count: nat, ghost at: int, ghost checks: seq<int>)
      requires Inv() && !ended && |found.news| == config.motors
      modifies `clock, `lastReply, `frames, `fault, `faultAxis, `lastSend, `framesSent, `staleFrames, `firstSend,
        `sentAny, `starts, `stoppedExternally
      ensures Shape() && Timing() && Fits(config, outcome, count) && (StaleStarted() ==> outcome == Stopped)
      ensures |frames| == |old(frames)| + count && Heard(old(lastReply), found.news, lastReply)
      ensures forall i | |old(frames)| <= i < |frames| :: frames[i].cycle == k
      ensures old(clock) <= at <= clock
      ensures Deserves(config, origin, k, old(History()), lastReply, found, answers, at, checks, outcome, count)
    {
      count, checks := 0, [];
      var before, stale := Before(k, found);
      at := clock;
      if before.Some? {
        return before.value, 0, at, [];
      }
      var ok := Prepare(stale, answers);
      if !ok {
        return Stopped, 0, at, [];
      }
      outcome, count, checks := Transmit(k, stale, answers);
    }

    /** One traced cycle; true when the loop goes on. Its outcome and its frames are what it deserves. */
    method Cycle(k: nat, found: Findings, answers: Answers)
      returns (go: bool, ghost frameCount: nat, ghost at: int, ghost checks: seq<int>)
      requires Inv() && !ended && |found.news| == config.motors
      modifies this
      ensures Inv() && go == !ended
      ensures old(outcomes) <= outcomes && |outcomes| == |old(outcomes)| + 1
      ensures counts == old(counts) + [frameCount] && |frames| == |old(frames)| + frameCount
      ensures forall i | |old(frames)| <= i < |frames| :: frames[i].cycle == k
      ensures old(clock) <= at <= clock && Heard(old(lastReply), found.news, lastReply)
      ensures Deserves(config, origin, k, old(History()), lastReply, found, answers, at, checks,
                       outcomes[|old(outcomes)|], frameCount)
      ensures go <==> outcomes[|old(outcomes)|] != Stopped
    {
      var outcome, count;
      outcome, count, at, checks := Attempt(k, found, answers);
      Record(outcome, count);
      return !ended, count, at, checks;
    }

    /** The loop for as many slots as it gets: it ends by itself, by its owner or by another bus. */
    method SendLoop(slots: nat)
      requires Inv() && !ended && cycleCount == 0
      modifies this
      ensures Inv()
      ensures cycleCount == cycles + skipped + partial + TallyOf(outcomes).stopped
      ensures TallyOf(outcomes).stopped <= 1 && (Stopped in outcomes ==> outcomes[|outcomes| - 1] == Stopped)
      ensures Spaced(config, starts) && AllInSlot(config, origin, frames)
    {
      var k := 0;
      while k < slots && !ended
        invariant Inv()
      {
        var running, requested: bool := *, *;
        if !running {
          break;
        }
        if requested {
          stoppedExternally := true;
          break;
        }
        var found: Findings := *;
        var answers: Answers := *;
        if |found.news| == config.motors {
          var _, _, _, _ := Cycle(k, found, answers);
        }
        k := k + 1;
      }
      TallyAddsUp(outcomes);
    }
  }

  lemma SpacedGrows(c: Config, starts: seq<Start>, s: Start)
    requires c.period > 0 && Spaced(c, starts)
    requires starts != [] ==> !starts[|starts| - 1].stale && starts[|starts| - 1].time <= s.time
    requires starts != [] ==> s.stale || starts[|starts| - 1].time + c.period / 2 <= s.time
    ensures Spaced(c, starts + [s])
  {
    var all := starts + [s];
    forall i, j | 0 <= i < j < |all|
      ensures all[j].stale || all[j].time >= all[i].time + c.period / 2
      ensures !all[i].stale && all[i].time <= all[j].time
    {
      if j == |starts| && i < |starts| - 1 {
        assert starts[i].time <= starts[|starts| - 1].time;
      }
    }
  }
}
