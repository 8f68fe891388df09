/**
 The admission rule of include/bxi_hardware/pair_commit.hpp: a staged batch is adopted only under
 the next generation number, inside the configured bounds, and fully released when it is the
 first one or follows a fault.
 */
module PairCommits {
  import opened Doubles

  const MAX_GENERATION: nat := 9007199254740991
  const MAX_AXES: nat := 3
  const FIELDS: nat := 5

  datatype Reason =
    | BootWait | Unchanged | Accepted | InvalidGeneration | Rollback | Gap | InvalidBatch
    | LatchedNonzero | StartupExpired | UpperLimit | PublishFailed | NotClaimed | FeedbackPending

  datatype Bounds = Bounds(lower: seq<real>, upper: seq<real>)

  predicate BoundsFor(b: Bounds, count: nat) {
    |b.lower| == count && |b.upper| == count
  }

  datatype Commit = Commit(last: nat, latched: bool, expired: bool, deadline: int)

  function AfterReset(activation: int, timeout: int): Commit {
    Commit(0, false, false, activation + timeout)
  }

  // ----- what a batch is

  predicate InBounds(b: Bounds, values: seq<Double>) {
    && |b.lower| == |b.upper| == |values|
    && forall i | 0 <= i < |values| :: Within(values[i], b.lower[i], b.upper[i])
  }

  /** Every field except the positions is zero. */
  predicate Released(values: seq<Double>) {
    forall i | 0 <= i < |values| && i % FIELDS != 0 :: IsZero(values[i])
  }

  /** The double is a whole number that the generation counter can hold. */
  predicate IsGeneration(d: Double) {
    d.Fin? && 0.0 <= d.value <= MAX_GENERATION as real && d.value.Floor as real == d.value
  }

  function Generation(d: Double): nat
    requires IsGeneration(d)
  {
    d.value.Floor
  }

  lemma WholeNumberIsGeneration(n: nat)
    requires n <= MAX_GENERATION
    ensures IsGeneration(Fin(n as real)) && Generation(Fin(n as real)) == n
  {
  }

  function NumberOf(n: nat): Double {
    Fin(n as real)
  }

  /** The numbers a generation can be are exactly the doubles of 0, 1, ..., MAX_GENERATION. */
  lemma GenerationsAreNumbers(d: Double)
    ensures IsGeneration(d) <==> exists n: nat :: n <= MAX_GENERATION && d == NumberOf(n)
  {
    if IsGeneration(d) {
      var n: nat := d.value.Floor;
      assert n as real <= MAX_GENERATION as real && d == NumberOf(n);
    }
  }

  // ----- inspect

  function Expire(c: Commit, now: int): Commit {
    if c.last == 0 && now >= c.deadline then c.(expired := true, latched := true) else c
  }

  function InspectBatch(b: Bounds, c: Commit, values: seq<Double>): (Commit, Reason) {
    if !InBounds(b, values) then (c.(latched := true), InvalidBatch)
    else if (c.latched || c.last == 0) && !Released(values) then (c.(latched := true), LatchedNonzero)
    else (c, Accepted)
  }

  function Inspection(b: Bounds, before: Commit, generation: Double, values: seq<Double>, now: int): (Commit, Reason) {
    var c := Expire(before, now);
    if c.expired then (c, StartupExpired)
    else if !IsGeneration(generation) then
      (c.(latched := true), if c.last == MAX_GENERATION then UpperLimit else InvalidGeneration)
    else
      var g := Generation(generation);
      if g == 0 && c.last == 0 then (c, BootWait)
      else if g == c.last then (c, Unchanged)
      else if g < c.last then (c.(latched := true), Rollback)
      else if c.last == MAX_GENERATION then (c, UpperLimit)
      else if g != c.last + 1 then (c.(latched := true), Gap)
      else InspectBatch(b, c, values)
  }

  function Accept(c: Commit, generation: Double): Commit
    requires IsGeneration(generation)
  {
    c.(last := Generation(generation))
  }

  /** When a batch may be adopted, said once without the order of the checks. */
  predicate Admissible(b: Bounds, c: Commit, generation: Double, values: seq<Double>, now: int) {
    && !c.expired
    && (c.last == 0 ==> now < c.deadline)
    && IsGeneration(generation) && Generation(generation) == c.last + 1
    && InBounds(b, values)
    && (c.latched || c.last == 0 ==> Released(values))
  }

  /** The checks accept exactly the admissible batches, never lower the latch, and leave the
      accepted generation alone. */
  lemma InspectDecides(b: Bounds, c: Commit, generation: Double, values: seq<Double>, now: int)
    ensures var (after, reason) := Inspection(b, c, generation, values, now);
      && (reason == Accepted <==> Admissible(b, c, generation, values, now))
      && (reason == Accepted ==> after == c)
      && after.last == c.last && after.deadline == c.deadline
      && (c.latched ==> after.latched) && (c.expired ==> after.expired)
  {
    if IsGeneration(generation) {
      assert generation.value.Floor as real <= MAX_GENERATION as real;
    }
  }

  // ----- every answer, said once without the order of the checks

  /** No first batch by its deadline, now or earlier. */
  predicate Late(c: Commit, now: int) {
    c.expired || (c.last == 0 && now >= c.deadline)
  }

  /** The next number, with values that may not be adopted under it. */
  predicate BadNext(b: Bounds, c: Commit, generation: Double, values: seq<Double>) {
    && IsGeneration(generation) && Generation(generation) == c.last + 1
    && (!InBounds(b, values) || ((c.latched || c.last == 0) && !Released(values)))
  }

  /** What a correct controller never presents: no number, one already passed, one too far, or the
      next one with values that may not be adopted. */
  predicate Faulty(b: Bounds, c: Commit, generation: Double, values: seq<Double>) {
    || !IsGeneration(generation)
    || Generation(generation) < c.last || Generation(generation) > c.last + 1
    || BadNext(b, c, generation, values)
  }

  /** The latch goes up: the deadline passes without a first batch, or a faulty presentation is met
      before that. */
  predicate Raises(b: Bounds, c: Commit, generation: Double, values: seq<Double>, now: int) {
    (c.last == 0 && now >= c.deadline) || (!c.expired && Faulty(b, c, generation, values))
  }

  /** When each answer is given. */
  predicate Deserved(b: Bounds, c: Commit, generation: Double, values: seq<Double>, now: int, reason: Reason) {
    match reason
    case StartupExpired => Late(c, now)
    case InvalidGeneration => !Late(c, now) && !IsGeneration(generation) && c.last != MAX_GENERATION
    case UpperLimit => !Late(c, now) && !IsGeneration(generation) && c.last == MAX_GENERATION
    case BootWait => !Late(c, now) && IsGeneration(generation) && Generation(generation) == 0 == c.last
    case Unchanged => !Late(c, now) && IsGeneration(generation) && Generation(generation) == c.last != 0
    case Rollback => !Late(c, now) && IsGeneration(generation) && Generation(generation) < c.last
    case Gap => !Late(c, now) && IsGeneration(generation) && Generation(generation) > c.last + 1
    case InvalidBatch => !Late(c, now) && BadNext(b, c, generation, values) && !InBounds(b, values)
    case LatchedNonzero => !Late(c, now) && BadNext(b, c, generation, values) && InBounds(b, values)
    case Accepted => Admissible(b, c, generation, values, now)
    case _ => false
  }

  /** Every inspection gives the one answer that is deserved. It raises the latch exactly for being
      late or for a faulty presentation, and marks exactly the late ones expired. */
  lemma InspectAnswers(b: Bounds, c: Commit, generation: Double, values: seq<Double>, now: int, reason: Reason)
    ensures var (after, given) := Inspection(b, c, generation, values, now);
      && (given == reason <==> Deserved(b, c, generation, values, now, reason))
      && (after.latched <==> c.latched || Raises(b, c, generation, values, now))
      && (after.expired <==> Late(c, now))
      && after.last == c.last && after.deadline == c.deadline
  {
    if IsGeneration(generation) {
      assert generation.value.Floor as real <= MAX_GENERATION as real;
    }
  }

  /** What one write of a group comes to: adopted and published, adopted with its publication failed,
      which raises the latch, or the answer deserved. */
  predicate Processed(b: Bounds, c: Commit, generation: Double, values: seq<Double>, now: int, published: bool,
                      after: Commit, reason: Reason) {
    var adopted := Admissible(b, c, generation, values, now);
    && (if adopted then reason == (if published then Accepted else PublishFailed)
        else Deserved(b, c, generation, values, now, reason))
    && after.last == (if adopted then c.last + 1 else c.last) && after.deadline == c.deadline
    && (after.latched <==> c.latched || Raises(b, c, generation, values, now) || (adopted && !published))
    && (after.expired <==> Late(c, now))
  }

  /** A generation that is neither the accepted one nor the next one is what the two-party
      protocols must never produce. */
  lemma InspectNeighbours(b: Bounds, c: Commit, generation: Double, values: seq<Double>, now: int)
    requires IsGeneration(generation)
    ensures Inspection(b, c, generation, values, now).1 in {Gap, Rollback} ==>
      Generation(generation) < c.last || Generation(generation) > c.last + 1
    ensures !c.expired && (c.last == 0 ==> now < c.deadline) && c.last < MAX_GENERATION ==>
      (Inspection(b, c, generation, values, now).1 in {Gap, Rollback} <==>
       (Generation(generation) < c.last || Generation(generation) > c.last + 1))
  {
  }

  // ----- whole call sequences

  /** One use of the object between two resets. `Adopt` is inspect followed by accept when it
      said kAccepted, the only place accept is called from. */
  datatype Call = Adopt(generation: Double, values: seq<Double>, now: int) | Latch

  datatype Adopted = Adopted(generation: nat, values: seq<Double>, now: int, latched: bool)

  function Perform(b: Bounds, c: Commit, log: seq<Adopted>, call: Call): (r: (Commit, seq<Adopted>))
  {
    match call
    case Latch => (c.(latched := true), log)
    case Adopt(generation, values, now) =>
      var (after, reason) := Inspection(b, c, generation, values, now);
      if reason == Accepted then
        InspectDecides(b, c, generation, values, now);
        (Accept(after, generation), log + [Adopted(Generation(generation), values, now, after.latched)])
      else (after, log)
  }

  function PerformAll(b: Bounds, c: Commit, calls: seq<Call>): (Commit, seq<Adopted>)
    decreases |calls|
  {
    if calls == [] then (c, [])
    else
      var (mid, log) := PerformAll(b, c, calls[..|calls| - 1]);
      Perform(b, mid, log, calls[|calls| - 1])
  }

  predicate AdoptedOk(b: Bounds, a: Adopted, i: nat) {
    a.generation == i + 1 && InBounds(b, a.values) && (i == 0 || a.latched ==> Released(a.values))
  }

  /** The log is generations 1, 2, ..., last; each batch in bounds, the first and every one
      accepted under the latch released, the first before the deadline, and the latch flag, once
      up, up for the rest of the log. */
  ghost predicate LogOk(b: Bounds, deadline: int, log: seq<Adopted>) {
    && (forall i | 0 <= i < |log| :: AdoptedOk(b, log[i], i))
    && (log != [] ==> log[0].now < deadline)
    && (forall i, j | 0 <= i < j < |log| :: log[i].latched ==> log[j].latched)
  }

  lemma {:induction false} EveryCallSequence(b: Bounds, activation: int, timeout: int, calls: seq<Call>)
    ensures var (c, log) := PerformAll(b, AfterReset(activation, timeout), calls);
      && LogOk(b, activation + timeout, log)
      && c.last == |log| <= MAX_GENERATION && c.deadline == activation + timeout
      && (forall i | 0 <= i < |log| :: log[i].latched ==> c.latched)
      && (Latch in calls ==> c.latched) && (c.expired ==> c.latched)
  {
    if calls != [] {
      var head, call := calls[..|calls| - 1], calls[|calls| - 1];
      EveryCallSequence(b, activation, timeout, head);
      assert calls == head + [call];
      var (mid, log) := PerformAll(b, AfterReset(activation, timeout), head);
      if call.Adopt? {
        InspectDecides(b, mid, call.generation, call.values, call.now);
        InspectAnswers(b, mid, call.generation, call.values, call.now, Accepted);
      }
    }
  }

  /** A faulty presentation is never forgiven: from a reset on, whatever the later calls, only
      released batches are adopted after it. */
  lemma {:induction false} OnlyReleasesAfterFault(b: Bounds, activation: int, timeout: int, calls: seq<Call>, i: nat)
    requires i < |calls| && calls[i].Adopt?
    requires Faulty(b, PerformAll(b, AfterReset(activation, timeout), calls[..i]).0, calls[i].generation,
                    calls[i].values)
    ensures var (after, log) := PerformAll(b, AfterReset(activation, timeout), calls);
      var before := PerformAll(b, AfterReset(activation, timeout), calls[..i]).1;
      after.latched && before <= log && forall k | |before| <= k < |log| :: Released(log[k].values)
    decreases |calls|
  {
    var head, call := calls[..|calls| - 1], calls[|calls| - 1];
    var (mid, log) := PerformAll(b, AfterReset(activation, timeout), head);
    EveryCallSequence(b, activation, timeout, head);
    if i + 1 == |calls| {
      assert calls[..i] == head;
    } else {
      assert head[..i] == calls[..i];
      OnlyReleasesAfterFault(b, activation, timeout, head, i);
    }
    if call.Adopt? {
      InspectAnswers(b, mid, call.generation, call.values, call.now, Accepted);
      InspectDecides(b, mid, call.generation, call.values, call.now);
    }
  }

  // ----- the object

  class PairCommit {
    var axes: nat
    var bounds: Bounds
    var last: nat
    var deadline: int
    var latched: bool
    var expired: bool

    function ValueCount(): nat
      reads this
    {
      axes * FIELDS
    }

    ghost predicate Valid()
      reads this
    {
      2 <= axes <= MAX_AXES && BoundsFor(bounds, ValueCount())
    }

    function State(): Commit
      reads this
    {
      Commit(last, latched, expired, deadline)
    }

    constructor ()
      ensures Valid() && axes == 2 && State() == Commit(0, false, false, 0)
    {
      axes, last, deadline, latched, expired := 2, 0, 0, false, false;
      bounds := Bounds(seq(10, _ => 0.0), seq(10, _ => 0.0));
    }

    method Reset(activation: int, timeout: int)
      modifies `last, `latched, `expired, `deadline
      ensures State() == AfterReset(activation, timeout)
    {
      last, latched, expired, deadline := 0, false, false, activation + timeout;
    }

    /** The checks in the order of the code, with its two early-exit loops. */
    method Inspect(generation: Double, values: seq<Double>, now: int) returns (reason: Reason)
      requires Valid() && |values| == ValueCount()
      modifies `latched, `expired
      ensures (State(), reason) == Inspection(bounds, old(State()), generation, values, now)
      ensures reason == Accepted <==> Admissible(bounds, old(State()), generation, values, now)
      ensures Deserved(bounds, old(State()), generation, values, now, reason)
      ensures latched <==> old(latched) || Raises(bounds, old(State()), generation, values, now)
      ensures expired <==> Late(old(State()), now)
    {
      InspectAnswers(bounds, State(), generation, values, now, Inspection(bounds, State(), generation, values, now).1);
      if last == 0 && now >= deadline {
        expired, latched := true, true;
      }
      if expired {
        return StartupExpired;
      }
      if !generation.Fin? || generation.value < 0.0 || generation.value > MAX_GENERATION as real ||
         generation.value.Floor as real != generation.value
      {
        latched := true;
        return if last == MAX_GENERATION then UpperLimit else InvalidGeneration;
      }
      var g := generation.value.Floor;
      if g == 0 && last == 0 {
        return BootWait;
      }
      if g == last {
        return Unchanged;
      }
      if g < last {
        latched := true;
        return Rollback;
      }
      if last == MAX_GENERATION {
        return UpperLimit;
      }
      if g != last + 1 {
        latched := true;
        return Gap;
      }
      for i := 0 to |values|
        invariant forall k | 0 <= k < i :: Within(values[k], bounds.lower[k], bounds.upper[k])
      {
        if !values[i].Fin? || values[i].value < bounds.lower[i] || values[i].value > bounds.upper[i] {
          latched := true;
          return InvalidBatch;
        }
      }
      if latched || last == 0 {
        for i := 0 to |values|
          invariant forall k | 0 <= k < i && k % FIELDS != 0 :: IsZero(values[k])
          invariant latched == old(State()).latched
        {
          if i % FIELDS != 0 && values[i] != Fin(0.0) {
            latched := true;
            return LatchedNonzero;
          }
        }
      }
      return Accepted;
    }
  }
}
