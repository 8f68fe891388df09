/**
 NAxisTrajectoryController (src/n_axis_trajectory_controller.cpp) against PairCommit.

 The other threads reach the update only through two snapshots and two flags, so what it reads
 there is free. Writes may be refused, limited or unreadable. The controller holds its generation
 until the hardware reports it accepted.
 */
module NAxis {
  import opened Doubles
  import opened Wrappers
  import opened PairCommits
  import opened Interfaces

  const LEASE: int := 500_000_000
  const ARM: int := 1_000_000_000
  const INT64_MAX: int := 0x7fff_ffff_ffff_ffff
  const PI: real := 3.14159265358979323846
  const DURATION: real := 35.0
  const HOLD: real := 1.0

  datatype State = Boot | Idle | Armed | Running | Holding | Released | Stopped | Aborted

  datatype Cause = Nothing | Release | Finish | Stop | States | Period | Lease | ArmTimeout | StartRange | Trajectory
    | Torque | Write | Capacity | UpperLimit | Deactivated

  datatype Request = Request(nonce: nat, id: nat, sent: int, received: int, axes: nat, profile: Profile,
                             kp: seq<Double>, kd: seq<Double>, release: bool)

  datatype Profile = Profile(amplitude: Double, frequency: Double, cycles: Double, ramp: Double, hold: Double)

  datatype Heartbeat = Heartbeat(nonce: nat, id: nat, sequence: nat, sent: int)

  const NO_RUN := Request(0, 0, 0, 0, 0, PROFILE, [], [], true)
  const PROFILE := Profile(Fin(PI / 6.0), Fin(0.2), Fin(5.0), Fin(1.0), Fin(HOLD))

  /** What one update reads: the clock, the states, whether the accepted generation answered, the
      snapshots and flags, and the trajectory's point for this instant. */
  datatype Inputs = Inputs(start: int, states: seq<Option<Double>>, answered: bool, period: Double, stop: bool,
                           finish: bool,
                           request: Option<Request>, heart: Option<Heartbeat>,
                           position: Double, velocity: Double, acceleration: Double)

  predicate LeaseExpired(now: int, sent: int) {
    sent <= 0 || sent > INT64_MAX - LEASE || now < sent || now - sent >= LEASE
  }

  /** A heartbeat is good for half a second from when it was sent, and never before. */
  lemma LeaseIsHalfASecond(now: int, sent: int)
    requires now <= INT64_MAX - LEASE
    ensures !LeaseExpired(now, sent) <==> 0 < sent <= now < sent + 500_000_000
  {
  }

  /** A later heartbeat of this run that was not sent in the future. */
  predicate Newer(last: Heartbeat, h: Heartbeat, run: Request, now: int) {
    h.nonce == run.nonce && h.id == run.id && h.sequence > last.sequence && last.sent <= h.sent <= now
  }

  predicate MayAdvance(done: bool, g: nat, accepted: Option<Double>) {
    done && accepted.Some? && accepted.value == Fin(g as real)
  }

  /** The generation an update writes: the next one exactly when the last one was seen accepted. */
  function Candidate(done: bool, g: nat, last: nat, answered: bool): (c: nat)
    requires last <= g
    ensures c == g || (c == g + 1 && last == g)
    ensures c == g + 1 <==> (g == 0 || (done && answered && last == g))
  {
    var accepted := if answered then Some(Fin(last as real)) else None;
    if g == 0 then 1 else g + (if MayAdvance(done, g, accepted) then 1 else 0)
  }

  function Abs(x: real): real {
    if x < 0.0 then -x else x
  }

  /** The controller is over: it may still write, but only released batches. */
  predicate Over(s: State) {
    s in {Released, Stopped, Aborted}
  }

  predicate Driving(s: State) {
    s in {Running, Holding}
  }

  // ----- what an update leaves behind

  /** `phase`: the state when the normal batch was written; `after`: when the update returned. */
  datatype Row = Row(start: int, sent: int, previous: nat, generation: nat, accepted: nat, positions: seq<Double>,
                     phase: State, after: State, normal: Option<seq<Double>>, released: Option<seq<Double>>)

  datatype Config = Config(axes: nat, lower: seq<real>, upper: seq<real>, maxTorque: real, stateLimit: real,
                           maxPeriod: real,
                           capacity: nat)

  predicate ConfigOk(c: Config) {
    2 <= c.axes <= MAX_AXES && |c.lower| == |c.upper| == c.axes
  }

  /** A run's gains are finite, positive and inside the fixed limits. */
  predicate GainsInRange(c: Config, r: Request)
    requires ConfigOk(c)
  {
    && |r.kp| == |r.kd| == c.axes
    && forall a | 0 <= a < c.axes ::
         && r.kp[a].Fin? && 0.0 < r.kp[a].value <= 20.0 && Within(r.kd[a], 0.0, 1.0)
         && r.profile.amplitude.Fin? && c.lower[a] <= -r.profile.amplitude.value &&
           r.profile.amplitude.value <= c.upper[a]
  }

  function AxisOf(batch: seq<Double>, a: nat): (axis: seq<Double>)
    requires FIELDS * a + FIELDS <= |batch|
    ensures |axis| == FIELDS
  {
    batch[FIELDS * a..FIELDS * a + FIELDS]
  }

  /** One driving axis: inside its limits, slow enough, and its spring torque bounded. */
  predicate AxisBounded(c: Config, axis: seq<Double>, position: Double, a: nat)
    requires ConfigOk(c) && a < c.axes && |axis| == FIELDS
  {
    && Within(axis[0], c.lower[a], c.upper[a])
    && Within(axis[1], -0.7, 0.7)
    && Within(axis[2], 0.0, 20.0) && Within(axis[3], 0.0, 1.0)
    && IsZero(axis[4])
    && position.Fin?
    && axis[2].value * Abs(axis[0].value - position.value) <= c.maxTorque
  }

  predicate Bounded(c: Config, batch: seq<Double>, positions: seq<Double>)
    requires ConfigOk(c)
  {
    && |batch| == FIELDS * c.axes && |positions| == c.axes
    && forall a | 0 <= a < c.axes :: AxisBounded(c, AxisOf(batch, a), positions[a], a)
  }

  /** A batch with gains is written only while driving under a live lease and bounded. */
  predicate GainsJustified(c: Config, row: Row)
    requires ConfigOk(c)
  {
    && (row.normal.Some? && !PairCommits.Released(row.normal.value) ==>
          Driving(row.phase) && !LeaseExpired(row.start, row.sent) && Bounded(c, row.normal.value, row.positions))
    && (row.released.Some? ==> row.after == Aborted && PairCommits.Released(row.released.value))
  }

  /** The generation moves by at most one, and only past an accepted one. */
  predicate Paced(row: Row) {
    && (row.generation == row.previous || row.generation == row.previous + 1)
    && (row.generation == row.previous + 1 ==> row.accepted == row.previous)
    && row.accepted <= row.previous
  }

  predicate RowOk(c: Config, row: Row)
    requires ConfigOk(c)
  {
    GainsJustified(c, row) && Paced(row) && (Over(row.phase) ==> Over(row.after))
  }

  predicate NoGains(row: Row) {
    (row.normal.Some? ==> PairCommits.Released(row.normal.value)) &&
      (row.released.Some? ==> PairCommits.Released(row.released.value))
  }

  /** Nothing carries gains once an update has ended the run, and an aborted one is the last. */
  ghost predicate EndsForGood(rows: seq<Row>) {
    forall i, j | 0 <= i < j < |rows| ::
      (Over(rows[i].after) ==> NoGains(rows[j]) && Over(rows[j].after)) && rows[i].after != Aborted
  }

  predicate RowsOk(c: Config, rows: seq<Row>)
    requires ConfigOk(c)
  {
    forall i | 0 <= i < |rows| :: RowOk(c, rows[i])
  }

  /** The rows, and what they say about the state reached. */
  ghost predicate History(c: Config, rows: seq<Row>, state: State)
    requires ConfigOk(c)
  {
    && RowsOk(c, rows) && EndsForGood(rows)
    && (forall i | 0 <= i < |rows| ::
        (Over(rows[i].after) ==> Over(state)) && (rows[i].after == Aborted ==> state == Aborted))
  }

  lemma HistoryGrows(c: Config, rows: seq<Row>, state: State, row: Row)
    requires ConfigOk(c) && History(c, rows, state) && state != Aborted
    requires RowOk(c, row) && (Over(state) ==> NoGains(row) && Over(row.after))
    ensures History(c, rows + [row], row.after)
  {
  }

  function Observed(states: seq<Option<Double>>): (o: seq<Double>)
    ensures |o| == |states|
    ensures forall i | 0 <= i < |o| :: !o[i].Inf? && (o[i].Fin? ==> states[i] == Some(o[i]))
    ensures forall i | 0 <= i < |o| && states[i].Some? && states[i].value.Fin? :: o[i].Fin?
  {
    seq(|states|, i requires 0 <= i < |states| =>
      if states[i].Some? && states[i].value.Fin? then states[i].value else NaN)
  }

  function Positions(states: seq<Double>, axes: nat): (p: seq<Double>)
    requires |states| == 3 * axes
    ensures |p| == axes && forall a | 0 <= a < axes :: p[a] == states[3 * a]
  {
    seq(axes, a requires 0 <= a < axes => states[3 * a])
  }

  /** The positions with every gain zero. */
  function ReleasedBatch(positions: seq<Double>): (b: seq<Double>)
    ensures |b| == FIELDS * |positions| && PairCommits.Released(b)
  {
    seq(FIELDS * |positions|, f requires 0 <= f < FIELDS * |positions| =>
      if f % FIELDS == 0 then positions[f / FIELDS] else Fin(0.0))
  }

  /** Every axis is released where it is. */
  lemma ReleasedBatchOfAxis(positions: seq<Double>, a: nat)
    requires a < |positions|
    ensures AxisOf(ReleasedBatch(positions), a) == [positions[a], Fin(0.0), Fin(0.0), Fin(0.0), Fin(0.0)]
  {
    var b := ReleasedBatch(positions);
    assert b[FIELDS * a] == positions[a];
    assert b[FIELDS * a + 1] == b[FIELDS * a + 2] == b[FIELDS * a + 3] == b[FIELDS * a + 4] == Fin(0.0);
  }

  /** Axis `a` of a batch set to drive, the others as they were. */
  function WithAxis(batch: seq<Double>, a: nat, position: Double, speed: Double, kp: Double,
                    kd: Double): (b: seq<Double>)
    requires FIELDS * a + FIELDS <= |batch|
    ensures |b| == |batch| && AxisOf(b, a) == [position, speed, kp, kd, AxisOf(batch, a)[4]]
    ensures forall k: nat | k != a && FIELDS * k + FIELDS <= |b| :: AxisOf(b, k) == AxisOf(batch, k)
  {
    batch[FIELDS * a := position][FIELDS * a + 1 := speed][FIELDS * a + 2 := kp][FIELDS * a + 3 := kd]
  }

  /** Every axis has the same point and its own gains, and no effort. */
  predicate Follows(batch: seq<Double>, r: Request, position: Double, speed: Double) {
    && |batch| == FIELDS * |r.kp| && |r.kd| == |r.kp|
    && forall a | 0 <= a < |r.kp| :: AxisOf(batch, a) == [position, speed, r.kp[a], r.kd[a], Fin(0.0)]
  }

  /** The batch an update must write in state `phase`. */
  predicate Ordered(input: Inputs, r: Request, phase: State, positions: seq<Double>, batch: seq<Double>) {
    if Driving(phase) then Follows(batch, r, input.position, if phase == Holding then Fin(0.0) else input.velocity)
    else batch == ReleasedBatch(positions)
  }

  // ----- what the controller decides

  /** The part of the controller that messages and the clock move. */
  datatype Machine = Machine(state: State, cause: Cause, terminal: bool, run: Request, heart: Heartbeat, armed: int,
                             elapsed: real)

  predicate ValidRun(c: Config, r: Request, start: int)
    requires ConfigOk(c)
  {
    && r.axes == c.axes && r.nonce != 0 && r.id != 0 && 0 < r.sent <= start && r.received <= start
    && r.profile == PROFILE && GainsInRange(c, r)
  }

  /** Exactly the fixed profile is run, pi / 6 at 0.2 Hz for five cycles with one to ramp up and one to
      ramp down, on all axes, with gains in their fixed range and an amplitude inside every axis' limits. */
  lemma ValidRunIs(c: Config, r: Request, start: int)
    requires ConfigOk(c)
    ensures ValidRun(c, r, start) <==>
      (r.nonce != 0 && r.id != 0 && 1 <= r.sent <= start && r.received <= start &&
       r.axes == c.axes == |r.kp| == |r.kd| &&
       r.profile == Profile(Fin(PI / 6.0), Fin(0.2), Fin(5.0), Fin(1.0), Fin(1.0)) &&
       forall a | 0 <= a < c.axes ::
         r.kp[a].Fin? && r.kp[a].value > 0.0 && Within(r.kp[a], 0.0, 20.0) && Within(r.kd[a], 0.0, 1.0) &&
         c.lower[a] <= -PI / 6.0 && PI / 6.0 <= c.upper[a])
    ensures DURATION * 0.2 == 5.0 + 1.0 + 1.0
  {
  }

  function Ended(m: Machine, state: State, cause: Cause): Machine {
    m.(state := state, cause := cause, terminal := true)
  }

  /** A new request of an idle controller, then a newer heartbeat. */
  function Take(c: Config, m: Machine, input: Inputs): Machine
    requires ConfigOk(c)
  {
    var m' := if m.state != Idle || input.request.None? then m
              else if ValidRun(c, input.request.value, input.start)
              then m.(run := input.request.value, state := Armed, armed := input.start)
              else Ended(m.(run := input.request.value), Aborted, Trajectory);
    if input.heart.Some? && Newer(m'.heart, input.heart.value, m'.run, input.start)
    then m'.(heart := input.heart.value) else m'
  }

  predicate InStartRange(positions: seq<Double>) {
    forall a | 0 <= a < |positions| :: positions[a].Fin? ==> Abs(positions[a].value) <= 0.05
  }

  /** Armed to running on a live heartbeat, and the ways out of running and holding. */
  function Move(m: Machine, input: Inputs, positions: seq<Double>, dt: real): Machine {
    var expired := LeaseExpired(input.start, m.heart.sent);
    if m.state == Armed then
      if m.heart.sequence != 0 && !expired then
        if InStartRange(positions) then m.(state := Running, elapsed := 0.0) else Ended(m, Aborted, StartRange)
      else if input.start - m.armed >= ARM then Ended(m, Aborted, ArmTimeout) else m
    else if Driving(m.state) then
      var m' := m.(elapsed := m.elapsed + dt);
      if expired then Ended(m', Aborted, Lease)
      else if m.state == Holding && input.finish then Ended(m', State.Released, Finish)
      else if m'.elapsed >= DURATION + HOLD && m.run.release then Ended(m', State.Released, Release)
      else if m'.elapsed >= DURATION then m'.(state := Holding) else m'
    else m
  }

  function Decision(c: Config, m: Machine, input: Inputs, positions: seq<Double>, dt: real): Machine
    requires ConfigOk(c)
  {
    if input.stop then Ended(m, Stopped, Stop)
    else if m.state == Boot then m
    else
      var taken := Take(c, m, input);
      if taken.state == Aborted then taken else Move(taken, input, positions, dt)
  }

  /** The run that a heartbeat must belong to: a new request replaces the old run even if it is refused. */
  function RunInForce(m: Machine, input: Inputs): Request {
    if m.state == Idle && input.request.Some? then input.request.value else m.run
  }

  /** The heartbeat is this run's, with a higher number, not sent before the last nor in the future. */
  function HeartInForce(m: Machine, input: Inputs): Heartbeat {
    if input.heart.None? then m.heart
    else
      var h, run := input.heart.value, RunInForce(m, input);
      if (h.nonce, h.id) == (run.nonce, run.id) && m.heart.sequence < h.sequence &&
         m.heart.sent <= h.sent <= input.start
      then h else m.heart
  }

  /** Waiting for its first heartbeat, from this update on or from before. */
  predicate Waiting(c: Config, m: Machine, input: Inputs)
    requires ConfigOk(c)
  {
    m.state == Armed || (m.state == Idle && input.request.Some? && ValidRun(c, input.request.value, input.start))
  }

  predicate Leased(m: Machine, input: Inputs) {
    !LeaseExpired(input.start, HeartInForce(m, input).sent)
  }

  predicate Beating(m: Machine, input: Inputs) {
    HeartInForce(m, input).sequence != 0 && Leased(m, input)
  }

  /** A reason to let go: asked to while holding, or the end of a run that releases. */
  predicate LetsGo(m: Machine, input: Inputs, dt: real) {
    (m.state == Holding && input.finish) || (m.run.release && m.elapsed + dt >= DURATION + HOLD)
  }

  /** Each state a decision can reach, by what leads there. */
  lemma DecidesExactly(c: Config, m: Machine, input: Inputs, positions: seq<Double>, dt: real)
    requires ConfigOk(c) && m.state != Aborted
    ensures var next := Decision(c, m, input, positions, dt);
      && (next.state == Stopped <==> input.stop || m.state == Stopped)
      && (next.state == Boot <==> !input.stop && m.state == Boot)
      && (next.state == Idle <==> !input.stop && m.state == Idle && input.request.None?)
      && (next.state == Armed <==>
            (!input.stop && Waiting(c, m, input) && !Beating(m, input) &&
             (m.state == Armed ==> input.start - m.armed < ARM)))
      && (next.state == Running <==>
            (!input.stop && ((Waiting(c, m, input) && Beating(m, input) && InStartRange(positions)) ||
                             (m.state == Running && Leased(m, input) && m.elapsed + dt < DURATION))))
      && (next.state == Holding <==>
            (!input.stop && Driving(m.state) && Leased(m, input) && !LetsGo(m, input, dt) &&
             (m.state == Holding || m.elapsed + dt >= DURATION)))
      && (next.state == State.Released <==>
            (!input.stop && (m.state == State.Released ||
                             (Driving(m.state) && Leased(m, input) && LetsGo(m, input, dt)))))
      && (next.state == Aborted <==>
            (!input.stop && ((m.state == Idle && input.request.Some? && !Waiting(c, m, input)) ||
                             (Waiting(c, m, input) && Beating(m, input) && !InStartRange(positions)) ||
                             (m.state == Armed && !Beating(m, input) && input.start - m.armed >= ARM) ||
                             (Driving(m.state) && !Leased(m, input)))))
  {
    if !input.stop && m.state != Boot {
      TakesExactly(c, m, input);
    }
  }

  /** A new request of an idle controller arms or aborts it, and the heartbeat in force is kept. */
  lemma TakesExactly(c: Config, m: Machine, input: Inputs)
    requires ConfigOk(c)
    ensures Take(c, m, input) ==
      m.(run := RunInForce(m, input), heart := HeartInForce(m, input),
         state := if m.state != Idle || input.request.None? then m.state
                  else if Waiting(c, m, input) then Armed else Aborted,
         armed := if Waiting(c, m, input) && m.state == Idle then input.start else m.armed,
         cause := if m.state == Idle && input.request.Some? && !Waiting(c, m, input) then Trajectory else m.cause,
         terminal := m.terminal || (m.state == Idle && input.request.Some? && !Waiting(c, m, input)))
  {
  }

  /** What else a decision leaves. */
  lemma DecisionLeaves(c: Config, m: Machine, input: Inputs, positions: seq<Double>, dt: real)
    requires ConfigOk(c) && m.state != Aborted
    ensures var next := Decision(c, m, input, positions, dt);
      && (!input.stop && m.state != Boot ==>
            next.run == RunInForce(m, input) && next.heart == HeartInForce(m, input) &&
            next.armed == if Waiting(c, m, input) && m.state == Idle then input.start else m.armed)
      && (Driving(next.state) ==> next.elapsed == if Driving(m.state) then m.elapsed + dt else 0.0)
      && (Driving(next.state) ==> !LeaseExpired(input.start, next.heart.sent))
      && (Over(next.state) && !Over(m.state) ==> next.terminal)
  {
    if !input.stop && m.state != Boot {
      TakesExactly(c, m, input);
    }
  }

  /** The point of the trajectory may not be commanded. */
  predicate Blocked(c: Config, r: Request, input: Inputs, positions: seq<Double>)
    requires ConfigOk(c) && |positions| == c.axes
  {
    var p, v, acc := input.position, input.velocity, input.acceleration;
    || !p.Fin? || !v.Fin? || !acc.Fin? || Abs(v.value) > 0.70 || Abs(acc.value) > 0.90
    || SomeAxisBlocked(c, r, p.value, positions)
  }

  predicate SomeAxisBlocked(c: Config, r: Request, p: real, positions: seq<Double>)
    requires ConfigOk(c) && |positions| == c.axes
  {
    exists a :: 0 <= a < c.axes && a < |r.kp| && r.kp[a].Fin? && positions[a].Fin? &&
                AxisBlocked(c, r.kp[a].value, p, positions[a].value, a)
  }

  /** Outside the limits of axis a, or its spring would pull too hard. */
  predicate AxisBlocked(c: Config, kp: real, p: real, position: real, a: nat)
    requires ConfigOk(c) && a < c.axes
  {
    p < c.lower[a] || p > c.upper[a] || kp * Abs(p - position) > c.maxTorque
  }

  /** A position is missing or outside the limits, so not even a release can be built. */
  predicate Missing(c: Config, positions: seq<Double>)
    requires ConfigOk(c) && |positions| == c.axes
  {
    exists a | 0 <= a < c.axes :: !Within(positions[a], c.lower[a], c.upper[a])
  }

  /** A state is missing, or the period is not one. */
  predicate Unfit(c: Config, input: Inputs, observed: seq<Double>) {
    || (exists i | 0 <= i < |observed| :: !observed[i].Fin?)
    || !input.period.Fin? || input.period.value <= 0.0 || input.period.value > c.maxPeriod
  }

  /** Some joint stands beyond the state limit. */
  predicate OutOfState(c: Config, observed: seq<Double>)
    requires |observed| == 3 * c.axes
  {
    exists a | 0 <= a < c.axes :: observed[3 * a].Fin? && Abs(observed[3 * a].value) > c.stateLimit
  }

  /** The first checks of an update end it: no room for its row, no usable states or period, or a joint
      out of range while there are generations left. */
  predicate Refused(c: Config, count: nat, input: Inputs, observed: seq<Double>, candidate: nat)
    requires |observed| == 3 * c.axes
  {
    count >= c.capacity || Unfit(c, input, observed) || (candidate <= MAX_GENERATION && OutOfState(c, observed))
  }

  // ----- what one attempt leaves behind

  type Answers = nat -> Answer

  predicate AllBack(answers: Answers, values: seq<Double>) {
    forall i | 0 <= i < |values| :: Back(answers(i), values[i])
  }

  /** The number can be committed at all. */
  predicate Usable(g: nat) {
    0 < g <= MAX_GENERATION
  }

  /** The cell after the values is the commit. */
  predicate Written(answers: Answers, values: seq<Double>, g: nat) {
    Usable(g) && AllBack(answers, values) && answers(|values|).taken && answers(|values|).read
  }

  function CellAfter(cell: nat, answers: Answers, values: seq<Double>, g: nat): nat {
    if Usable(g) && AllBack(answers, values) && answers(|values|).taken then g else cell
  }

  /** Every value is tried, whatever became of the others. */
  predicate StagedAfter(before: seq<Double>, after: seq<Double>, answers: Answers, values: seq<Double>, g: nat)
    requires |before| == |after| == |values|
  {
    forall i | 0 <= i < |values| :: after[i] == if Usable(g) then Held(answers(i), before[i]) else before[i]
  }

  // ----- what an update comes to

  /** The machine after the decision, with `count` rows recorded before. */
  function Decided(c: Config, m: Machine, count: nat, input: Inputs, candidate: nat): Machine
    requires ConfigOk(c) && |input.states| == 3 * c.axes
  {
    var observed := Observed(input.states);
    if Refused(c, count, input, observed, candidate) then m.(state := Aborted)
    else if candidate > MAX_GENERATION then m
    else Decision(c, m, input, Positions(observed, c.axes), input.period.value)
  }

  /** The state the normal batch is built in. */
  predicate PhaseOk(c: Config, m: Machine, count: nat, input: Inputs, row: Row)
    requires ConfigOk(c) && |input.states| == 3 * c.axes
  {
    var positions, next := Positions(Observed(input.states), c.axes), Decided(c, m, count, input, row.generation);
    row.phase == if row.generation <= MAX_GENERATION && Driving(next.state) && Blocked(c, next.run, input, positions)
                 then Aborted else next.state
  }

  /** The update ends quietly: nothing refused it, but the generations are used up. */
  predicate Exhausted(row: Row) {
    row.phase != Aborted && row.generation > MAX_GENERATION
  }

  /** When the normal and the released batch are tried, and the state they leave. */
  predicate WritesOk(c: Config, normal: Answers, row: Row)
    requires ConfigOk(c) && |row.positions| == c.axes
  {
    && (row.normal.Some? <==>
          (row.phase != Aborted && !Exhausted(row) && (Driving(row.phase) || !Missing(c, row.positions))))
    && (row.after ==
        if Exhausted(row) then row.phase
        else if row.normal.None? || !Written(normal, row.normal.value, row.generation) then Aborted
        else if row.phase == Boot then Idle else row.phase)
    && (row.released.Some? <==>
          (row.after == Aborted && !Missing(c, row.positions) && row.generation <= MAX_GENERATION))
  }

  /** A batch under construction: the axes below `done` drive, the others have no effort. */
  predicate DrivenUpTo(c: Config, batch: seq<Double>, positions: seq<Double>, done: nat)
    requires ConfigOk(c)
  {
    && |batch| == FIELDS * c.axes && |positions| == c.axes && done <= c.axes
    && (forall k | 0 <= k < done :: AxisBounded(c, AxisOf(batch, k), positions[k], k))
    && (forall k | done <= k < c.axes :: IsZero(AxisOf(batch, k)[4]))
  }

  lemma BlockedAt(c: Config, r: Request, p: real, positions: seq<Double>, a: nat)
    requires ConfigOk(c) && |positions| == c.axes && a < c.axes && a < |r.kp| && r.kp[a].Fin? && positions[a].Fin?
    requires AxisBlocked(c, r.kp[a].value, p, positions[a].value, a)
    ensures SomeAxisBlocked(c, r, p, positions)
  {
  }

  lemma AxisIsClear(c: Config, axis: seq<Double>, position: Double, a: nat)
    requires ConfigOk(c) && a < c.axes && |axis| == FIELDS && AxisBounded(c, axis, position, a)
    ensures !AxisBlocked(c, axis[2].value, axis[0].value, position.value, a)
  {
  }

  lemma BoundedIsClear(c: Config, r: Request, p: Double, speed: Double, values: seq<Double>, positions: seq<Double>)
    requires ConfigOk(c) && |positions| == c.axes == |r.kp| && Bounded(c, values, positions) && p.Fin?
    requires Follows(values, r, p, speed)
    ensures !SomeAxisBlocked(c, r, p.value, positions)
  {
    forall a | 0 <= a < c.axes && r.kp[a].Fin? && positions[a].Fin?
      ensures !AxisBlocked(c, r.kp[a].value, p.value, positions[a].value, a)
    {
      AxisIsClear(c, AxisOf(values, a), positions[a], a);
    }
  }

  lemma DriveAxis(c: Config, batch: seq<Double>, positions: seq<Double>, a: nat, axis: seq<Double>)
    requires ConfigOk(c) && a < c.axes && DrivenUpTo(c, batch, positions, a)
    requires |axis| == FIELDS && AxisBounded(c, axis, positions[a], a)
    ensures DrivenUpTo(c, WithAxis(batch, a, axis[0], axis[1], axis[2], axis[3]), positions, a + 1)
  {
    assert AxisOf(WithAxis(batch, a, axis[0], axis[1], axis[2], axis[3]), a) == axis;
  }

  class NAxisController {
    const config: Config
    const bounds: Bounds
    var state: State
    var cause: Cause
    var terminal: bool
    var active: bool
    var generation: nat
    var previousComplete: bool
    var run: Request
    var heart: Heartbeat
    var armed: int
    var elapsed: real
    var rowCount: nat
    var staged: seq<Double>
    var cell: nat
    var hardware: Commit
    ghost var rows: seq<Row>

    ghost predicate Shape()
      reads this
    {
      ConfigOk(config) && |staged| == FIELDS * config.axes
    }

    /** The commit cell against both counters. */
    ghost predicate Linked()
      reads this
    {
      && hardware.last <= cell <= hardware.last + 1 && cell <= MAX_GENERATION
      && generation <= cell <= generation + 1
      && (state != Aborted ==> cell == generation)
    }

    ghost predicate RunOk()
      requires ConfigOk(config)
      reads this
    {
      state in {Armed, Running, Holding} ==> GainsInRange(config, run)
    }

    ghost predicate Inv()
      reads this
    {
      Shape() && Linked() && RunOk() && History(config, rows, state)
    }

    /** on_activate has seen accepted generation zero. */
    constructor (config: Config, bounds: Bounds, initial: seq<Double>, deadline: int)
      requires ConfigOk(config) && |initial| == FIELDS * config.axes
      ensures Inv() && state == Boot && active && rows == [] && this.config == config
    {
      this.config, this.bounds := config, bounds;
      state, cause, terminal, active := Boot, Nothing, false, true;
      generation, previousComplete := 0, false;
      run, heart, armed, elapsed := NO_RUN, Heartbeat(0, 0, 0, 0), 0, 0.0;
      rowCount, staged, cell := 0, initial, 0;
      hardware := Commit(0, false, false, deadline);
      rows := [];
    }

    method Abort(why: Cause)
      modifies `state, `cause, `terminal
      ensures state == Aborted && cause == why && terminal
    {
      state, cause, terminal := Aborted, why, true;
    }

    /** No command is written here. */
    method Deactivate()
      requires Inv()
      modifies `terminal, `active, `cause
      ensures Inv() && terminal && !active && cause == (if old(cause) == Nothing then Deactivated else old(cause))
    {
      terminal, active := true, false;
      if cause == Nothing {
        cause := Deactivated;
      }
    }

    // ----- attempt

    /** Write all values and read each back; only if all came back, the commit cell too. */
    method Attempt(values: seq<Double>, g: nat, answers: Answers) returns (ok: bool)
      requires Shape() && |values| == |staged|
      modifies `staged, `cell
      ensures Shape() && StagedAfter(old(staged), staged, answers, values, g)
      ensures cell == CellAfter(old(cell), answers, values, g)
      ensures ok <==> Written(answers, values, g)
      ensures Usable(g) && AllBack(answers, values) ==> staged == values
    {
      if g == 0 || g > MAX_GENERATION {
        return false;
      }
      ok := true;
      for i := 0 to |values|
        invariant Shape() && |staged| == |values| && cell == old(cell)
        invariant ok <==> forall k | 0 <= k < i :: Back(answers(k), values[k])
        invariant forall k | 0 <= k < |values| ::
          staged[k] == if k < i then Held(answers(k), old(staged)[k]) else old(staged)[k]
      {
        if !answers(i).taken {
          ok := false;
          continue;
        }
        staged := staged[i := answers(i).stored];
        if !answers(i).read || !staged[i].Fin? || staged[i] != values[i] {
          ok := false;
        }
      }
      if !ok {
        return false;
      }
      var commit := answers(|values|);
      if !commit.taken {
        return false;
      }
      cell := g;
      return commit.read;
    }

    // ----- update

    ghost function View(): Machine
      reads this
    {
      Machine(state, cause, terminal, run, heart, armed, elapsed)
    }

    /** Take over a new request and the newest heartbeat of the run. */
    method TakeMessages(input: Inputs)
      requires ConfigOk(config) && RunOk()
      modifies `state, `cause, `terminal, `run, `heart, `armed
      ensures RunOk() && View() == Take(config, old(View()), input)
    {
      if state == Idle && input.request.Some? {
        run := input.request.value;
        if !ValidRun(config, run, input.start) {
          Abort(Trajectory);
        } else {
          state, armed := Armed, input.start;
        }
      }
      if input.heart.Some? {
        var h := input.heart.value;
        if Newer(heart, h, run, input.start) {
          heart := h;
        }
      }
    }

    method Progress(input: Inputs, positions: seq<Double>, dt: real)
      requires ConfigOk(config) && RunOk() && |positions| == config.axes
      requires forall a | 0 <= a < |positions| :: positions[a].Fin?
      modifies `state, `cause, `terminal, `elapsed
      ensures RunOk() && View() == Move(old(View()), input, positions, dt)
    {
      if state == Armed {
        if heart.sequence != 0 && !LeaseExpired(input.start, heart.sent) {
          for a := 0 to |positions|
            invariant if forall k | 0 <= k < a :: Abs(positions[k].value) <= 0.05 then View() == old(View())
                      else View() == Ended(old(View()), Aborted, StartRange)
          {
            if Abs(positions[a].value) > 0.05 {
              Abort(StartRange);
            }
          }
          if state != Aborted {
            state, elapsed := Running, 0.0;
          }
        } else if input.start - armed >= ARM {
          Abort(ArmTimeout);
        }
      } else if Driving(state) {
        elapsed := elapsed + dt;
      }
      if Driving(state) {
        if LeaseExpired(input.start, heart.sent) {
          Abort(Lease);
        } else if state == Holding && input.finish {
          state, cause, terminal := State.Released, Finish, true;
        } else if elapsed >= DURATION + HOLD && run.release {
          state, cause, terminal := State.Released, Release, true;
        } else if elapsed >= DURATION {
          state := Holding;
        }
      }
    }

    /** The batch for the state reached. It aborts exactly if the point of a drive is blocked. */
    method Command(input: Inputs, positions: seq<Double>) returns (values: seq<Double>)
      requires ConfigOk(config) && RunOk() && |positions| == config.axes
      requires state != Aborted ==> forall a | 0 <= a < |positions| :: positions[a].Fin?
      modifies `state, `cause, `terminal
      ensures |values| == FIELDS * config.axes && RunOk()
      ensures if Driving(old(state)) && Blocked(config, run, input, positions)
              then state == Aborted && terminal && cause in {Trajectory, Torque} else View() == old(View())
      ensures Driving(state) ==> Bounded(config, values, positions)
      ensures state != Aborted ==> Ordered(input, run, state, positions, values)
    {
      values := ReleasedBatch(positions);
      if !Driving(state) {
        return;
      }
      var p, v, acc := input.position, input.velocity, input.acceleration;
      if !p.Fin? || !v.Fin? || !acc.Fin? || Abs(v.value) > 0.70 || Abs(acc.value) > 0.90 {
        Abort(Trajectory);
        return;
      }
      values := Drive(p, if state == Holding then Fin(0.0) else v, positions);
    }

    /** The same point for every axis, with the run's gains. */
    method Drive(p: Double, speed: Double, positions: seq<Double>) returns (values: seq<Double>)
      requires ConfigOk(config) && Driving(state) && GainsInRange(config, run) && |positions| == config.axes
      requires p.Fin? && Within(speed, -0.7, 0.7) && forall a | 0 <= a < |positions| :: positions[a].Fin?
      modifies `state, `cause, `terminal
      ensures |values| == FIELDS * config.axes
      ensures if SomeAxisBlocked(config, run, p.value, positions)
              then state == Aborted && terminal && cause in {Trajectory, Torque} else View() == old(View())
      ensures Driving(state) ==> Bounded(config, values, positions) && Follows(values, run, p, speed)
    {
      values := ReleasedBatch(positions);
      for a := 0 to config.axes
        invariant View() == old(View()) && DrivenUpTo(config, values, positions, a)
        invariant forall k | 0 <= k < a :: AxisOf(values, k) == [p, speed, run.kp[k], run.kd[k], Fin(0.0)]
      {
        if p.value < config.lower[a] || p.value > config.upper[a] {
          Abort(Trajectory);
          BlockedAt(config, run, p.value, positions, a);
          return;
        }
        if run.kp[a].value * Abs(p.value - positions[a].value) > config.maxTorque {
          Abort(Torque);
          BlockedAt(config, run, p.value, positions, a);
          return;
        }
        DriveAxis(config, values, positions, a, [p, speed, run.kp[a], run.kd[a], Fin(0.0)]);
        values := WithAxis(values, a, p, speed, run.kp[a], run.kd[a]);
      }
      BoundedIsClear(config, run, p, speed, values, positions);
    }

    /** The first checks of an update; `exhausted` when the generations are used up. */
    method Check(input: Inputs, observed: seq<Double>, candidate: nat) returns (exhausted: bool)
      requires ConfigOk(config) && |observed| == 3 * config.axes && state != Aborted
      modifies `state, `cause, `terminal
      ensures state == if Refused(config, rowCount, input, observed, candidate) then Aborted else old(state)
      ensures exhausted <==> state != Aborted && candidate > MAX_GENERATION
      ensures state != Aborted && !exhausted ==> cause == old(cause) && terminal == old(terminal)
      ensures state != Aborted && exhausted ==> cause == Cause.UpperLimit && terminal
      ensures state == Aborted ==>
        terminal && cause == if rowCount >= config.capacity then Capacity
                             else if exists i | 0 <= i < |observed| :: !observed[i].Fin? then States
                             else if Unfit(config, input, observed) then Period else States
      ensures state != Aborted ==> input.period.Fin? && forall i | 0 <= i < |observed| :: observed[i].Fin?
    {
      exhausted := false;
      if rowCount >= config.capacity {
        Abort(Capacity);
      } else if exists i | 0 <= i < |observed| :: !observed[i].Fin? {
        Abort(States);
      } else if !input.period.Fin? || input.period.value <= 0.0 || input.period.value > config.maxPeriod {
        Abort(Period);
      } else if candidate > MAX_GENERATION {
        terminal, cause := true, Cause.UpperLimit;
        return true;
      } else {
        CheckPositions(observed);
      }
    }

    method CheckPositions(observed: seq<Double>)
      requires |observed| == 3 * config.axes && state != Aborted
      requires forall i | 0 <= i < |observed| :: observed[i].Fin?
      modifies `state, `cause, `terminal
      ensures if OutOfState(config, observed) then state == Aborted && cause == States && terminal
              else state == old(state) && cause == old(cause) && terminal == old(terminal)
    {
      for a := 0 to config.axes
        invariant if exists k | 0 <= k < a :: Abs(observed[3 * k].value) > config.stateLimit
                  then state == Aborted && cause == States && terminal
                  else state == old(state) && cause == old(cause) && terminal == old(terminal)
      {
        if state != Aborted && Abs(observed[3 * a].value) > config.stateLimit {
          Abort(States);
        }
      }
    }

    /** Stop, or messages and progress. */
    method Decide(input: Inputs, positions: seq<Double>)
      requires ConfigOk(config) && RunOk() && state != Aborted && |positions| == config.axes && input.period.Fin?
      requires forall a | 0 <= a < |positions| :: positions[a].Fin?
      modifies `state, `cause, `terminal, `run, `heart, `armed, `elapsed
      ensures RunOk() && View() == Decision(config, old(View()), input, positions, input.period.value)
    {
      if input.stop {
        state, cause, terminal := Stopped, Stop, true;
      } else if state != Boot {
        TakeMessages(input);
        if state != Aborted {
          Progress(input, positions, input.period.value);
        }
      }
    }

    /** Write the batch, and a released one if the update has failed or fails here. */
    method WriteOut(values: seq<Double>, positions: seq<Double>, candidate: nat, normally: Answers, release: Answers)
      returns (normal: Option<seq<Double>>, released: Option<seq<Double>>, ghost between: seq<Double>)
      requires Shape() && |positions| == config.axes && |values| == FIELDS * config.axes && RunOk()
      requires cell == generation
      modifies `state, `cause, `terminal, `generation, `previousComplete, `staged, `cell
      ensures Shape() && RunOk() && |between| == |values|
      ensures normal == if old(state) != Aborted && (Driving(old(state)) || !Missing(config, positions))
                        then Some(values) else None
      ensures state == if normal.None? || !Written(normally, values, candidate) then Aborted
                       else if old(state) == Boot then Idle else old(state)
      ensures released == if state == Aborted && !Missing(config, positions) && candidate <= MAX_GENERATION
                          then Some(ReleasedBatch(positions)) else None
      ensures state == Aborted && old(state) != Aborted ==> terminal && cause == if normal.None? then States else Write
      ensures state != Aborted || old(state) == Aborted ==> cause == old(cause) && terminal == old(terminal)
      ensures if state == Aborted then generation == old(generation) && previousComplete == old(previousComplete)
              else generation == candidate == cell && previousComplete
      ensures if normal.Some? then StagedAfter(old(staged), between, normally, values, candidate)
              else between == old(staged)
      ensures if released.Some? then StagedAfter(between, staged, release, released.value, candidate)
              else staged == between
      ensures cell ==
        var first := if normal.Some? then CellAfter(old(cell), normally, values, candidate) else old(cell);
        if released.Some? then CellAfter(first, release, released.value, candidate) else first
    {
      normal, released := None, None;
      if state != Aborted {
        if Missing(config, positions) && !Driving(state) {
          Abort(States);
        } else {
          var written := Attempt(values, candidate, normally);
          normal := Some(values);
          if !written {
            Abort(Write);
          } else {
            generation, previousComplete := candidate, true;
            if state == Boot {
              state := Idle;
            }
          }
        }
      }
      between := staged;
      if state == Aborted && !Missing(config, positions) && candidate <= MAX_GENERATION {
        var _ := Attempt(ReleasedBatch(positions), candidate, release);
        released := Some(ReleasedBatch(positions));
      }
    }

    /** The rest of an update after its first checks. */
    method Act(input: Inputs, positions: seq<Double>, candidate: nat, normally: Answers, release: Answers)
      returns (ghost row: Row)
      requires Shape() && RunOk() && |input.states| == 3 * config.axes && cell == generation
      requires positions == Positions(Observed(input.states), config.axes)
      requires candidate == generation || candidate == generation + 1 == hardware.last + 1
      requires hardware.last <= generation && (candidate <= MAX_GENERATION || state == Aborted)
      requires state != Aborted ==> input.period.Fin? && forall a | 0 <= a < |positions| :: positions[a].Fin?
      modifies `state, `cause, `terminal, `run, `heart, `armed, `elapsed, `generation, `previousComplete, `staged, `cell
      ensures Shape() && RunOk()
      ensures cell == old(cell) || (cell == candidate && candidate <= MAX_GENERATION)
      ensures if state == Aborted then generation == old(generation) else generation == candidate == cell
      ensures RowOk(config, row) && Recorded(input, row) && WritesOk(config, normally, row)
      ensures row.generation == candidate && row.previous == old(generation)
      ensures var next := if old(state) == Aborted then old(View())
                          else Decision(config, old(View()), input, positions, input.period.value);
        && View() == next.(state := state, cause := cause, terminal := terminal)
        && row.phase == (if Driving(next.state) && Blocked(config, next.run, input, positions) then Aborted
                         else next.state)
      ensures Over(old(state)) ==> NoGains(row) && Over(state)
    {
      ghost var own := generation;
      if state != Aborted {
        DecidesExactly(config, View(), input, positions, input.period.value);
        DecisionLeaves(config, View(), input, positions, input.period.value);
        Decide(input, positions);
      }
      var values := Command(input, positions);
      ghost var phase := state;
      var normal, released, _ := WriteOut(values, positions, candidate, normally, release);
      row := Row(input.start, heart.sent, own, candidate, hardware.last, positions, phase, state, normal, released);
    }

    /** An update of a live controller, up to its record. */
    method Perform(input: Inputs, normally: Answers, release: Answers) returns (ok: bool, ghost row: Row)
      requires Shape() && Linked() && RunOk() && |input.states| == 3 * config.axes && state != Aborted
      modifies `state, `cause, `terminal, `run, `heart, `armed, `elapsed, `generation, `previousComplete, `staged, `cell
      ensures Shape() && Linked() && RunOk() && (ok <==> state != Aborted)
      ensures RowOk(config, row) && Recorded(input, row)
      ensures PhaseOk(config, old(View()), rowCount, input, row) && WritesOk(config, normally, row)
      ensures row.generation == Candidate(old(previousComplete), old(generation), hardware.last, input.answered)
      ensures Over(old(state)) ==> NoGains(row) && Over(state)
      ensures generation == if ok && row.generation <= MAX_GENERATION then row.generation else old(generation)
      ensures cell != old(cell) ==> cell == old(generation) + 1 && hardware.last == old(generation)
      ensures View() == Decided(config, old(View()), rowCount, input, row.generation).(
        state := state, cause := cause, terminal := terminal)
    {
      var observed := Observed(input.states);
      var positions := Positions(observed, config.axes);
      var candidate := Candidate(previousComplete, generation, hardware.last, input.answered);
      row := Row(input.start, heart.sent, generation, candidate, hardware.last, positions, state, state, None, None);
      var exhausted := Check(input, observed, candidate);
      if exhausted {
        return true, row;
      }
      row := Act(input, positions, candidate, normally, release);
      ok := state != Aborted;
    }

    /** One control cycle. The phase of its row is the one the machine decides, the normal batch is tried
        exactly in a phase that has one, the release exactly after a failure with known positions, and the
        state that remains is the phase exactly if the normal batch was written. */
    method Update(input: Inputs, normally: Answers, release: Answers) returns (ok: bool)
      requires Inv() && |input.states| == 3 * config.axes
      modifies this
      ensures Inv() && hardware == old(hardware) && active == old(active)
      ensures old(state) == Aborted || !old(active) ==>
        !ok && rows == old(rows) && staged == old(staged) && cell == old(cell) && View() == old(View())
      ensures old(state) != Aborted && old(active) ==>
        && |rows| == |old(rows)| + 1 && rows[..|old(rows)|] == old(rows)
        && Recorded(input, rows[|old(rows)|])
        && PhaseOk(config, old(View()), old(rowCount), input, rows[|old(rows)|])
        && WritesOk(config, normally, rows[|old(rows)|])
        && rows[|old(rows)|].generation ==
           Candidate(old(previousComplete), old(generation), hardware.last, input.answered)
        && (ok <==> state != Aborted)
        && View() == Decided(config, old(View()), old(rowCount), input, rows[|old(rows)|].generation).(
             state := state, cause := cause, terminal := terminal)
        && generation == if ok && rows[|old(rows)|].generation <= MAX_GENERATION then rows[|old(rows)|].generation
                         else old(generation)
      ensures generation == old(generation) ||
        (generation == old(generation) + 1 && hardware.last == old(generation) && ok)
      ensures cell != old(cell) ==> cell == old(generation) + 1 && hardware.last == old(generation)
    {
      if state == Aborted || !active {
        return false;
      }
      ghost var before, row := state, *;
      ok, row := Perform(input, normally, release);
      HistoryGrows(config, rows, before, row);
      rows := rows + [row];
      rowCount := if rowCount < config.capacity then rowCount + 1 else rowCount;
    }

    /** The row is about this update: its clock, its states, and the batches it had to write. */
    ghost predicate Recorded(input: Inputs, row: Row)
      requires ConfigOk(config) && |input.states| == 3 * config.axes
      reads this
    {
      && row.start == input.start && row.sent == heart.sent && row.after == state
      && row.positions == Positions(Observed(input.states), config.axes)
      && (row.normal.Some? ==> Ordered(input, run, row.phase, row.positions, row.normal.value))
      && (row.released.Some? ==> row.released.value == ReleasedBatch(row.positions))
    }

    // ----- writePair

    /** The hardware side of a cycle. It never meets a gap, a rollback or a malformed number. */
    method HardwareWrite(now: int, held: bool, published: bool) returns (reason: Reason)
      requires Inv()
      modifies `hardware
      ensures Inv() && reason !in {Gap, Rollback, InvalidGeneration}
      ensures hardware.last != old(hardware).last ==> hardware.last == cell && InBounds(bounds, staged)
      ensures if held then reason == FeedbackPending && hardware == old(hardware)
              else Processed(bounds, old(hardware), Fin(cell as real), staged, now, published, hardware, reason)
    {
      if held {
        return FeedbackPending;
      }
      WholeNumberIsGeneration(cell);
      var number := Fin(cell as real);
      var (after, why) := Inspection(bounds, hardware, number, staged, now);
      InspectAnswers(bounds, hardware, number, staged, now, why);
      reason := why;
      hardware := if reason == Accepted then Accept(after, number) else after;
      if reason == Accepted && !published {
        hardware := hardware.(latched := true);
        reason := PublishFailed;
      }
    }

    /** Any number of cycles: gains only while driving, leased and bounded; generations paced by
        acceptance; nothing with gains after the end. */
    method Run(cycles: nat)
      requires Inv()
      modifies this
      ensures Inv() && RowsOk(config, rows) && EndsForGood(rows)
    {
      for i := 0 to cycles
        invariant Inv()
      {
        var input: Inputs := *;
        var normally: Answers := *;
        var release: Answers := *;
        if |input.states| == 3 * config.axes {
          var _ := Update(input, normally, release);
        }
        var now: int := *;
        var held: bool := *;
        var published: bool := *;
        var _ := HardwareWrite(now, held, published);
        var leaving: bool := *;
        if leaving {
          Deactivate();
        }
      }
    }
  }
}
