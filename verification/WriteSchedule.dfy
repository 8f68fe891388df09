/**
 When the write-triggered sender has something to do.

 `Schedule` is the timing policy of include/bxi_hardware/write_schedule.hpp. The rest is the part
 of sendWriteLoop between its loads and its sends (src/bus_streamer.cpp): what stops the stream,
 what is due, and the instant the timer is armed for before it sleeps.
 */
module WriteSchedules {

  datatype Timing = Timing(period: int, grace: int, maxCommandAge: int, maxFeedbackAge: int,
                           firstWriteTimeout: int, group: bool)

  /** What validate() demands of a write-triggered stream. */
  predicate ValidTiming(c: Timing) {
    && c.period > 0 && c.grace > 0 && c.firstWriteTimeout > 0
    && c.maxFeedbackAge >= 2 * c.period && c.maxCommandAge >= 2 * c.period
    && c.period + c.grace < c.maxFeedbackAge && c.period + c.grace < c.maxCommandAge
  }

  datatype Schedule = Schedule(sequence: nat, sentSequence: nat, publishedNs: int,
                               lastSendNs: int, resendNs: int, lastWasResend: bool)
  {
    function Published(c: Timing, seq': nat, at: int): Schedule {
      this.(sequence := seq', publishedNs := at, resendNs := at + c.period + c.grace)
    }

    function Sent(c: Timing, at: int, resend: bool): Schedule {
      this.(lastSendNs := at, lastWasResend := resend, sentSequence := sequence,
            resendNs := if resend then at + c.period else resendNs)
    }

    predicate Pending() { sequence != sentSequence }

    function EarliestSend(c: Timing): int { lastSendNs + c.period / 2 }

    predicate Held(c: Timing, now: int) { lastSendNs != 0 && now < EarliestSend(c) }

    predicate ResendDue(now: int) { !Pending() && now >= resendNs }

    predicate Active() { sequence != 0 }

    predicate Expired(c: Timing, now: int) { Active() && now >= publishedNs + c.maxCommandAge }
  }

  /** What the loop remembers, and what it has just loaded from the other threads. */
  datatype Local = Local(schedule: Schedule, snapshotFailed: bool, retryDue: int, bootstrapDue: int,
                         firstSend: int)

  datatype Seen = Seen(armed: int, rxFault: bool, received: seq<int>)

  datatype Stop = NoStop | CommandStale | SnapshotUnavailable | StartupTimeout | RxFault | FeedbackLost

  predicate ZeroStop(s: Stop) {
    s.CommandStale? || s.SnapshotUnavailable? || s.StartupTimeout?
  }

  /** The reply age of one axis counts from its last reply, or from the first streamed send. */
  function ReplyBase(received: int, firstSend: int): int {
    if received != 0 then received else firstSend
  }

  predicate SomeReplyLost(c: Timing, l: Local, received: seq<int>, now: int) {
    exists i | 0 <= i < |received| ::
      var base := ReplyBase(received[i], l.firstSend);
      base != 0 && now >= base + c.maxFeedbackAge
  }

  /** captureFeedback's stale mask is not empty: only replies of this stream count, and a base in
      the future is unknown rather than stale. */
  predicate CaptureStale(c: Timing, firstSend: int, received: seq<int>, at: int) {
    firstSend != 0 && exists i | 0 <= i < |received| ::
      var base := if received[i] != 0 && received[i] >= firstSend then received[i] else firstSend;
      base <= at && at - base >= c.maxFeedbackAge
  }

  function StopReason(c: Timing, l: Local, seen: Seen, now: int): Stop {
    if l.schedule.Expired(c, now) then (if l.snapshotFailed then SnapshotUnavailable else CommandStale)
    else if seen.rxFault then RxFault
    else if !l.schedule.Active() && seen.armed != 0 && now >= seen.armed + c.firstWriteTimeout then StartupTimeout
    else if !c.group && SomeReplyLost(c, l, seen.received, now) then FeedbackLost
    else NoStop
  }

  predicate Resend(l: Local, now: int) {
    l.schedule.Active() && !l.snapshotFailed && l.schedule.ResendDue(now)
  }

  predicate Wanted(l: Local, now: int) {
    if l.schedule.Active() then !l.snapshotFailed && (l.schedule.Pending() || Resend(l, now))
    else now >= l.bootstrapDue
  }

  /** A batch leaves at `now`: always for a zero-gain stop, otherwise unless the minimum interval
      holds it back. */
  predicate Due(c: Timing, l: Local, stop: Stop, now: int) {
    ZeroStop(stop) || (Wanted(l, now) && !l.schedule.Held(c, now))
  }

  /** Nothing to do at this instant, the safety capture aside: no stop, no batch, no snapshot retry. */
  predicate Settled(c: Timing, l: Local, seen: Seen, now: int) {
    && StopReason(c, l, seen, now) == NoStop
    && !Due(c, l, NoStop, now)
    && (l.snapshotFailed ==> now < l.retryDue)
  }

  /** Nothing to do at this instant at all. */
  predicate Quiet(c: Timing, l: Local, seen: Seen, now: int) {
    Settled(c, l, seen, now) && !(c.group && CaptureStale(c, l.firstSend, seen.received, now))
  }

  function Min(a: int, b: int): int { if a <= b then a else b }
  function Max(a: int, b: int): int { if a >= b then a else b }

  function FeedbackDue(c: Timing, l: Local, received: seq<int>, now: int): (due: int)
    ensures forall i | 0 <= i < |received| && ReplyBase(received[i], l.firstSend) != 0 ::
      due <= ReplyBase(received[i], l.firstSend) + c.maxFeedbackAge
    ensures due <= now + c.maxFeedbackAge
    ensures due == now + c.maxFeedbackAge || exists i ::
      0 <= i < |received| && ReplyBase(received[i], l.firstSend) != 0 &&
      due == ReplyBase(received[i], l.firstSend) + c.maxFeedbackAge
  {
    if received == [] then now + c.maxFeedbackAge
    else
      var rest := FeedbackDue(c, l, received[..|received| - 1], now);
      var base := ReplyBase(received[|received| - 1], l.firstSend);
      if base != 0 then Min(rest, base + c.maxFeedbackAge) else rest
  }

  /** The instant computed before the sleep. */
  function WakeAt(c: Timing, l: Local, seen: Seen, now: int): int {
    var feedback := FeedbackDue(c, l, seen.received, now);
    var s := l.schedule;
    if s.Active() then
      var command := Min(feedback, s.publishedNs + c.maxCommandAge);
      if l.snapshotFailed then Min(command, l.retryDue)
      else if s.Pending() || Resend(l, now) then Min(command, s.EarliestSend(c))
      else Min(command, s.resendNs)
    else
      var boot := Min(feedback, l.bootstrapDue);
      var retry := if l.snapshotFailed then Min(boot, l.retryDue) else boot;
      if seen.armed != 0 then Min(retry, seen.armed + c.firstWriteTimeout) else retry
  }

  /** The armed timer: never in the past of the clock reading taken for it. */
  function Timer(c: Timing, l: Local, seen: Seen, now: int, clock: int): int {
    Max(WakeAt(c, l, seen, now), clock + 1)
  }

  // ----- when something must happen, in the terms of the clock alone

  /** The cached command has reached its maximum age. */
  predicate TooOld(c: Timing, s: Schedule, now: int) {
    s.sequence != 0 && now >= s.publishedNs + c.maxCommandAge
  }

  predicate NeverWritten(c: Timing, s: Schedule, armed: int, now: int) {
    s.sequence == 0 && armed != 0 && now >= armed + c.firstWriteTimeout
  }

  /** No reply of this axis for too long; without any, counted from the first send. */
  predicate Silent(c: Timing, firstSend: int, received: int, now: int) {
    || (received != 0 && now >= received + c.maxFeedbackAge)
    || (received == 0 && firstSend != 0 && now >= firstSend + c.maxFeedbackAge)
  }

  /** The instant calls for this stop: age before a receive fault, that before a missing first write,
      and that before silence, which pair mode leaves to its capture. */
  predicate StopDue(c: Timing, l: Local, seen: Seen, now: int, stop: Stop) {
    var s := l.schedule;
    var silent := !c.group && exists i | 0 <= i < |seen.received| :: Silent(c, l.firstSend, seen.received[i], now);
    match stop
    case CommandStale => TooOld(c, s, now) && !l.snapshotFailed
    case SnapshotUnavailable => TooOld(c, s, now) && l.snapshotFailed
    case RxFault => !TooOld(c, s, now) && seen.rxFault
    case StartupTimeout => NeverWritten(c, s, seen.armed, now) && !seen.rxFault
    case FeedbackLost => !TooOld(c, s, now) && !seen.rxFault && !NeverWritten(c, s, seen.armed, now) && silent
    case NoStop => !TooOld(c, s, now) && !seen.rxFault && !NeverWritten(c, s, seen.armed, now) && !silent
  }

  /** A batch must leave: a new one, a repeat that is due or a bootstrap that is due, half a period
      after the last at the earliest. */
  predicate BatchDue(c: Timing, l: Local, now: int) {
    var s := l.schedule;
    && (s.lastSendNs == 0 || now >= s.lastSendNs + c.period / 2)
    && (if s.sequence != 0 then !l.snapshotFailed && (s.sequence != s.sentSequence || now >= s.resendNs)
        else now >= l.bootstrapDue)
  }

  /** In pair mode: some axis has not replied since the first send for too long. */
  predicate CaptureDue(c: Timing, l: Local, received: seq<int>, now: int) {
    && c.group && l.firstSend != 0 && now >= l.firstSend + c.maxFeedbackAge
    && exists i | 0 <= i < |received| :: received[i] == 0 || now >= received[i] + c.maxFeedbackAge
  }

  predicate SomethingDue(c: Timing, l: Local, seen: Seen, now: int) {
    || !StopDue(c, l, seen, now, NoStop) || BatchDue(c, l, now) || (l.snapshotFailed && now >= l.retryDue)
    || CaptureDue(c, l, seen.received, now)
  }

  /** The loop stops for exactly the reason that is due. */
  lemma StopsExactly(c: Timing, l: Local, seen: Seen, now: int, stop: Stop)
    ensures StopReason(c, l, seen, now) == stop <==> StopDue(c, l, seen, now, stop)
  {
    forall i | 0 <= i < |seen.received|
      ensures Silent(c, l.firstSend, seen.received[i], now) <==>
        ReplyBase(seen.received[i], l.firstSend) != 0 &&
        now >= ReplyBase(seen.received[i], l.firstSend) + c.maxFeedbackAge
    {
    }
  }

  /** Without a stop a batch leaves exactly when one must. */
  lemma SendsExactly(c: Timing, l: Local, now: int)
    ensures Due(c, l, NoStop, now) <==> BatchDue(c, l, now)
  {
  }

  lemma CapturesExactly(c: Timing, l: Local, received: seq<int>, now: int)
    requires c.maxFeedbackAge >= 0
    ensures CaptureDue(c, l, received, now) <==> c.group && CaptureStale(c, l.firstSend, received, now)
  {
    forall i | 0 <= i < |received| && l.firstSend != 0
      ensures var base := if received[i] != 0 && received[i] >= l.firstSend then received[i] else l.firstSend;
        (base <= now && now - base >= c.maxFeedbackAge) <==>
        now >= l.firstSend + c.maxFeedbackAge && (received[i] == 0 || now >= received[i] + c.maxFeedbackAge)
    {
    }
  }

  lemma QuietExactly(c: Timing, l: Local, seen: Seen, now: int)
    requires c.maxFeedbackAge >= 0
    ensures Quiet(c, l, seen, now) <==> !SomethingDue(c, l, seen, now)
  {
    StopsExactly(c, l, seen, now, NoStop);
    SendsExactly(c, l, now);
    CapturesExactly(c, l, seen.received, now);
  }

  /** The timer is not early for nothing: after the clock reading, and unless it is the reading or a
      look at the replies, at an instant when something is due or a batch is only held back. */
  lemma WakesForSomething(c: Timing, l: Local, seen: Seen, now: int, clock: int)
    requires c.maxFeedbackAge >= 0
    requires now <= clock
    ensures var t := Timer(c, l, seen, now, clock);
      && t > clock
      && (t > clock + 1 && t < FeedbackDue(c, l, seen.received, now) ==>
            SomethingDue(c, l, seen, t) || t < l.schedule.lastSendNs + c.period / 2)
  {
    QuietExactly(c, l, seen, Timer(c, l, seen, now, clock));
  }

  // ----- what a sleep can overlook

  /** Later loads of the same stamps: none is smaller. */
  predicate Raised(loaded: seq<int>, later: seq<int>) {
    |loaded| == |later| && forall a | 0 <= a < |loaded| :: 0 <= loaded[a] <= later[a]
  }

  /** Axis `a` had no stamp when it was loaded and now has one from before the first send (before
      this pass, if nothing was sent yet): the receive thread read its clock long before it stored. */
  predicate Overtaken(l: Local, loaded: seq<int>, later: seq<int>, now: int, a: nat)
    requires |loaded| == |later| && a < |loaded|
  {
    loaded[a] == 0 && 0 < later[a] < (if l.firstSend != 0 then l.firstSend else now)
  }

  /** With the reply stamps at `stamps`, whatever is due at some instant from `now` on is reached by
      the timer, or one nanosecond after the clock reading the timer was armed with. */
  ghost predicate MissesNothing(c: Timing, l: Local, seen: Seen, stamps: seq<int>, now: int, clock: int) {
    forall t | now <= t :: SomethingDue(c, l, seen.(received := stamps), t) ==>
      Timer(c, l, seen, now, clock) <= Max(t, clock + 1)
  }

  /** Nothing becomes due before the wake-up, whatever replies are stamped meanwhile: in pair mode
      always, in plain mode unless a stamp from before the first send comes in late. */
  lemma StaysQuiet(c: Timing, l: Local, seen: Seen, stamps: seq<int>, now: int, t: int)
    requires Settled(c, l, seen, now) && now <= t < WakeAt(c, l, seen, now) && Raised(seen.received, stamps)
    requires !c.group ==> forall a | 0 <= a < |stamps| ::
      Overtaken(l, seen.received, stamps, now, a) ==> t < stamps[a] + c.maxFeedbackAge
    ensures Quiet(c, l, seen.(received := stamps), t)
  {
    var due := FeedbackDue(c, l, seen.received, now);
    assert t < due;
    forall a | 0 <= a < |stamps|
      ensures var base := ReplyBase(stamps[a], l.firstSend); !c.group && base != 0 ==> t < base + c.maxFeedbackAge
      ensures l.firstSend != 0 ==>
        t < (if stamps[a] != 0 && stamps[a] >= l.firstSend then stamps[a] else l.firstSend) + c.maxFeedbackAge
    {
      assert ReplyBase(seen.received[a], l.firstSend) != 0 ==>
        due <= ReplyBase(seen.received[a], l.firstSend) + c.maxFeedbackAge;
    }
  }

  /** A late stamp from before the first send makes its axis due this long after it. */
  lemma OvertakenIsDue(c: Timing, l: Local, seen: Seen, stamps: seq<int>, t: int, a: nat)
    requires !c.group && a < |stamps| && stamps[a] != 0 && t >= stamps[a] + c.maxFeedbackAge
    ensures !Quiet(c, l, seen.(received := stamps), t)
  {
    assert SomeReplyLost(c, l, stamps, t);
  }

  /** What is due before the timer: at most a late stamp from before the first send. */
  lemma NothingBeforeTimer(c: Timing, l: Local, seen: Seen, stamps: seq<int>, now: int, clock: int, t: int)
    requires c.maxFeedbackAge >= 0 && Settled(c, l, seen, now) && now <= clock && Raised(seen.received, stamps)
    requires now <= t && Max(t, clock + 1) < Timer(c, l, seen, now, clock)
    requires c.group || forall a | 0 <= a < |stamps| :: Overtaken(l, seen.received, stamps, now, a) ==>
      Timer(c, l, seen, now, clock) <= Max(Max(now, stamps[a] + c.maxFeedbackAge), clock + 1)
    ensures !SomethingDue(c, l, seen.(received := stamps), t)
  {
    StaysQuiet(c, l, seen, stamps, now, t);
    QuietExactly(c, l, seen.(received := stamps), t);
  }

  /** A late stamp from before the first send that falls due before the timer is overlooked. */
  lemma OvertakenIsOverlooked(c: Timing, l: Local, seen: Seen, stamps: seq<int>, now: int, clock: int, a: nat)
    requires !c.group && c.maxFeedbackAge >= 0 && |seen.received| == |stamps| && a < |stamps|
    requires Overtaken(l, seen.received, stamps, now, a) && MissesNothing(c, l, seen, stamps, now, clock)
    ensures Timer(c, l, seen, now, clock) <= Max(Max(now, stamps[a] + c.maxFeedbackAge), clock + 1)
  {
    var t := Max(now, stamps[a] + c.maxFeedbackAge);
    OvertakenIsDue(c, l, seen, stamps, t, a);
    QuietExactly(c, l, seen.(received := stamps), t);
  }

  /** No missed deadline, in pair mode for any replies stamped since they were loaded. In plain mode
      the same, if and only if every stamp from before the first send that comes in after its load
      falls due no earlier than the timer. */
  lemma SleepMissesNothing(c: Timing, l: Local, seen: Seen, stamps: seq<int>, now: int, clock: int)
    requires c.maxFeedbackAge >= 0 && Settled(c, l, seen, now) && now <= clock && Raised(seen.received, stamps)
    ensures MissesNothing(c, l, seen, stamps, now, clock) <==>
      c.group || forall a | 0 <= a < |stamps| :: Overtaken(l, seen.received, stamps, now, a) ==>
        Timer(c, l, seen, now, clock) <= Max(Max(now, stamps[a] + c.maxFeedbackAge), clock + 1)
  {
    if MissesNothing(c, l, seen, stamps, now, clock) && !c.group {
      forall a | 0 <= a < |stamps| && Overtaken(l, seen.received, stamps, now, a)
        ensures Timer(c, l, seen, now, clock) <= Max(Max(now, stamps[a] + c.maxFeedbackAge), clock + 1)
      {
        OvertakenIsOverlooked(c, l, seen, stamps, now, clock, a);
      }
    }
    if c.group || forall a | 0 <= a < |stamps| :: Overtaken(l, seen.received, stamps, now, a) ==>
         Timer(c, l, seen, now, clock) <= Max(Max(now, stamps[a] + c.maxFeedbackAge), clock + 1)
    {
      forall t | now <= t && SomethingDue(c, l, seen.(received := stamps), t)
        ensures Timer(c, l, seen, now, clock) <= Max(t, clock + 1)
      {
        if Max(t, clock + 1) < Timer(c, l, seen, now, clock) {
          NothingBeforeTimer(c, l, seen, stamps, now, clock, t);
        }
      }
    }
  }
}
