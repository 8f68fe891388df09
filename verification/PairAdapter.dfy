/**
 BxiPairAdapter (src/bxi_pair_adapter.cpp) against one PairCommit per hardware group.

 Writing a command interface may be refused, and a joint interface may hand back another value
 than was written (a limiter); reading one back may fail but never lies. The commit cell is not
 limited. One control cycle is the adapter's update followed by each group's write, which may
 also be held back. Which of the numeric checks of a cycle fire is free, except the ones on the
 generations.
 */
module PairAdapters {
  import opened Doubles
  import opened PairCommits
  import opened Interfaces
  import opened Wrappers

  datatype Limits = Limits(lower: real, upper: real, kp: Double, kd: Double)

  datatype Group = Group(limits: seq<Limits>, bounds: Bounds)

  /** What one cycle computed for one axis of one group. */
  datatype Axis = Axis(position: Double, command: Double, velocity: Double)

  type Row = seq<seq<Axis>>

  predicate RowFor(groups: seq<Group>, row: Row) {
    |row| == |groups| && forall h | 0 <= h < |groups| :: |row[h]| == |groups[h].limits|
  }

  /** The value field `f` of a batch: position, velocity, kp, kd, effort for each axis. */
  function Value(g: Group, axes: seq<Axis>, release: bool, zero: bool, f: nat): Double
    requires |axes| == |g.limits| && f < FIELDS * |axes|
  {
    var axis, limits := axes[f / FIELDS], g.limits[f / FIELDS];
    match f % FIELDS
    case 0 => if release then axis.position else axis.command
    case 1 => if zero then Fin(0.0) else axis.velocity
    case 2 => if zero then Fin(0.0) else limits.kp
    case 3 => if zero then Fin(0.0) else limits.kd
    case _ => Fin(0.0)
  }

  function Target(g: Group, axes: seq<Axis>, release: bool, zero: bool): (t: seq<Double>)
    requires |axes| == |g.limits|
    ensures |t| == FIELDS * |axes|
    ensures zero ==> PairCommits.Released(t)
  {
    seq(FIELDS * |axes|, f requires 0 <= f < FIELDS * |axes| => Value(g, axes, release, zero, f))
  }

  /** The five values of axis a: a release stays where the joint is, and nothing has gains or speed
      when zero. */
  lemma TargetOfAxis(g: Group, axes: seq<Axis>, release: bool, zero: bool, a: nat)
    requires |axes| == |g.limits| && a < |axes|
    ensures var t, axis := Target(g, axes, release, zero), axes[a];
      t[FIELDS * a..FIELDS * a + FIELDS] ==
      [if release then axis.position else axis.command] +
      (if zero then [Fin(0.0), Fin(0.0), Fin(0.0)] else [axis.velocity, g.limits[a].kp, g.limits[a].kd]) + [Fin(0.0)]
  {
    FieldOf(a, 0);
    FieldOf(a, 1);
    FieldOf(a, 2);
    FieldOf(a, 3);
    FieldOf(a, 4);
  }

  lemma FieldOf(a: nat, k: nat)
    requires k < FIELDS
    ensures (FIELDS * a + k) / FIELDS == a && (FIELDS * a + k) % FIELDS == k
  {
  }

  /** Every position of the batch is finite and inside its joint's limits. */
  predicate PositionsOk(g: Group, axes: seq<Axis>, release: bool)
    requires |axes| == |g.limits|
  {
    forall a | 0 <= a < |axes| ::
      Within(if release then axes[a].position else axes[a].command, g.limits[a].lower, g.limits[a].upper)
  }

  // ----- one attempt: what it tries, and what comes back

  /** The answers of one attempt, by group and cell; the commit cell comes after the values. */
  type Answers = (nat, nat) -> Answer

  predicate AllBack(answers: Answers, h: nat, target: seq<Double>) {
    forall f | 0 <= f < |target| :: Back(answers(h, f), target[f])
  }

  /** One value written to cell `field` of a group. */
  datatype Try = Try(group: nat, field: nat, value: Double)

  function GroupTries(h: nat, target: seq<Double>): seq<Try> {
    seq(|target|, f requires 0 <= f < |target| => Try(h, f, target[f]))
  }

  /** One attempt of a cycle: its row, whether it is the release, who is left out, and the groups' own
      generations. */
  datatype Plan = Plan(row: Row, release: bool, skip: seq<bool>, counts: seq<nat>)

  predicate PlanFor(groups: seq<Group>, p: Plan) {
    RowFor(groups, p.row) && |p.skip| == |p.counts| == |groups|
  }

  function Order(groups: seq<Group>, p: Plan, h: nat): seq<Double>
    requires PlanFor(groups, p) && h < |groups|
  {
    Target(groups[h], p.row[h], p.release, p.release || p.counts[h] == 0)
  }

  /** Group h takes part: not left out, every position in its limits, a generation left. */
  predicate TakesPart(groups: seq<Group>, p: Plan, h: nat)
    requires PlanFor(groups, p) && h < |groups|
  {
    !p.skip[h] && PositionsOk(groups[h], p.row[h], p.release) && p.counts[h] + 1 <= MAX_GENERATION
  }

  /** Group h takes part and all its values came back. */
  predicate InPlace(groups: seq<Group>, p: Plan, answers: Answers, h: nat)
    requires PlanFor(groups, p) && h < |groups|
  {
    TakesPart(groups, p, h) && AllBack(answers, h, Order(groups, p, h))
  }

  predicate Everyone(groups: seq<Group>, p: Plan, answers: Answers)
    requires PlanFor(groups, p)
  {
    forall h | 0 <= h < |groups| :: InPlace(groups, p, answers, h)
  }

  /** The commit of group h is written: its values are in place, in a normal attempt everyone's. */
  predicate Commits(groups: seq<Group>, p: Plan, answers: Answers, h: nat)
    requires PlanFor(groups, p) && h < |groups|
  {
    InPlace(groups, p, answers, h) && (p.release || Everyone(groups, p, answers))
  }

  /** In a normal attempt all commits are written or none. */
  lemma CommitsTogether(groups: seq<Group>, p: Plan, answers: Answers)
    requires PlanFor(groups, p) && !p.release
    ensures forall h | 0 <= h < |groups| :: Commits(groups, p, answers, h) <==> Everyone(groups, p, answers)
  {
  }

  /** The first groups' values are in place exactly where `good` says so. */
  predicate Placed(groups: seq<Group>, p: Plan, answers: Answers, good: seq<bool>, staged: seq<seq<Double>>)
    requires PlanFor(groups, p) && |good| <= |staged| == |groups|
  {
    forall k | 0 <= k < |good| ::
      (good[k] <==> InPlace(groups, p, answers, k)) && (good[k] ==> staged[k] == Order(groups, p, k))
  }

  predicate NobodyFailed(skip: seq<bool>, good: seq<bool>)
    requires |good| <= |skip|
  {
    forall k | 0 <= k < |good| :: skip[k] || good[k]
  }

  lemma OneMoreAsked(skip: seq<bool>, good: seq<bool>, ok: bool)
    requires |good| < |skip|
    ensures NobodyFailed(skip, good + [ok]) <==> NobodyFailed(skip, good) && (skip[|good|] || ok)
  {
    assert (good + [ok])[|good|] == ok;
    assert forall k | 0 <= k < |good| :: (good + [ok])[k] == good[k];
  }

  lemma OneMorePlaced(groups: seq<Group>, p: Plan, answers: Answers, good: seq<bool>, ok: bool,
                      before: seq<seq<Double>>, staged: seq<seq<Double>>)
    requires PlanFor(groups, p) && |good| < |staged| == |before| == |groups| && Placed(groups, p, answers, good, before)
    requires forall k | 0 <= k < |groups| && k != |good| :: staged[k] == before[k]
    requires ok <==> InPlace(groups, p, answers, |good|)
    requires ok ==> staged[|good|] == Order(groups, p, |good|)
    ensures Placed(groups, p, answers, good + [ok], staged)
  {
  }

  function CommitAnswer(groups: seq<Group>, answers: Answers, h: nat): Answer
    requires h < |groups|
  {
    answers(h, FIELDS * |groups[h].limits|)
  }

  /** The commit of group h was read back. */
  predicate CommitBack(groups: seq<Group>, answers: Answers, h: nat)
    requires h < |groups|
  {
    CommitAnswer(groups, answers, h).taken && CommitAnswer(groups, answers, h).read
  }

  predicate CommitsBack(groups: seq<Group>, good: seq<bool>, answers: Answers, n: nat)
    requires |good| == |groups| && n <= |groups|
  {
    forall k | 0 <= k < n && good[k] :: CommitBack(groups, answers, k)
  }

  lemma OneMoreBack(groups: seq<Group>, good: seq<bool>, answers: Answers, n: nat)
    requires |good| == |groups| && n < |groups|
    ensures CommitsBack(groups, good, answers, n + 1) <==>
      CommitsBack(groups, good, answers, n) && (good[n] ==> CommitBack(groups, answers, n))
  {
  }

  /** What the first n commit writes leave in the cells. */
  predicate CellsAre(groups: seq<Group>, good: seq<bool>, answers: Answers, own: seq<nat>, before: seq<nat>,
                     cells: seq<nat>, n: nat)
    requires |good| == |own| == |before| == |cells| == |groups|
  {
    forall k | 0 <= k < |groups| ::
      cells[k] == if k < n && good[k] && CommitAnswer(groups, answers, k).taken then own[k] + 1 else before[k]
  }

  lemma OneMoreCell(groups: seq<Group>, good: seq<bool>, answers: Answers, own: seq<nat>, before: seq<nat>,
                    cells: seq<nat>, cells': seq<nat>, n: nat)
    requires |good| == |own| == |before| == |cells| == |groups| && n < |groups|
    requires CellsAre(groups, good, answers, own, before, cells, n)
    requires cells' == if good[n] && CommitAnswer(groups, answers, n).taken then cells[n := own[n] + 1] else cells
    ensures CellsAre(groups, good, answers, own, before, cells', n + 1)
  {
  }

  /** Every group not left out is in place with its commit read back. */
  predicate Succeeds(groups: seq<Group>, p: Plan, answers: Answers)
    requires PlanFor(groups, p)
  {
    && (p.release || Everyone(groups, p, answers))
    && (forall h | 0 <= h < |groups| && !p.skip[h] :: InPlace(groups, p, answers, h) && CommitBack(groups, answers, h))
  }

  /** The values group h is sent. */
  function OwnTries(groups: seq<Group>, p: Plan, h: nat): seq<Try>
    requires PlanFor(groups, p) && h < |groups|
  {
    if TakesPart(groups, p, h) then GroupTries(h, Order(groups, p, h)) else []
  }

  /** The first n parts one after the other. */
  function Joined<T>(parts: nat -> seq<T>, n: nat): seq<T> {
    if n == 0 then [] else Joined(parts, n - 1) + parts(n - 1)
  }

  lemma {:induction false} InJoined<T>(parts: nat -> seq<T>, n: nat, x: T)
    ensures x in Joined(parts, n) <==> exists h: nat :: h < n && x in parts(h)
  {
    if n > 0 {
      InJoined(parts, n - 1, x);
    }
  }

  lemma OneMorePart<T>(before: seq<T>, log: seq<T>, parts: nat -> seq<T>, n: nat)
    requires log == before + Joined(parts, n)
    ensures log + parts(n) == before + Joined(parts, n + 1)
  {
  }

  function Parts(groups: seq<Group>, p: Plan): nat -> seq<Try>
    requires PlanFor(groups, p)
  {
    (h: nat) => if h < |groups| then OwnTries(groups, p, h) else []
  }

  /** All values that are sent. */
  function Tries(groups: seq<Group>, p: Plan): seq<Try>
    requires PlanFor(groups, p)
  {
    Joined(Parts(groups, p), |groups|)
  }

  /** The plan orders this value for this cell. */
  predicate Ordered(groups: seq<Group>, p: Plan, t: Try)
    requires PlanFor(groups, p)
  {
    t.group < |groups| && TakesPart(groups, p, t.group) && t.field < |Order(groups, p, t.group)| &&
    t.value == Order(groups, p, t.group)[t.field]
  }

  lemma OwnTriesAre(groups: seq<Group>, p: Plan, h: nat, t: Try)
    requires PlanFor(groups, p) && h < |groups|
    ensures t in OwnTries(groups, p, h) <==> t.group == h && Ordered(groups, p, t)
  {
    var order := Order(groups, p, h);
    if TakesPart(groups, p, h) && t.group == h && t.field < |order| && t.value == order[t.field] {
      assert GroupTries(h, order)[t.field] == t;
    }
  }

  /** An attempt tries every value of every group that takes part, and nothing else. */
  lemma TriesAre(groups: seq<Group>, p: Plan, t: Try)
    requires PlanFor(groups, p)
    ensures t in Tries(groups, p) <==> Ordered(groups, p, t)
  {
    var parts := Parts(groups, p);
    InJoined(parts, |groups|, t);
    forall h: nat | h < |groups|
      ensures t in parts(h) <==> t.group == h && Ordered(groups, p, t)
    {
      OwnTriesAre(groups, p, h, t);
    }
    assert Ordered(groups, p, t) ==> t in parts(t.group);
  }

  /** A release reaches every group not left out that measures its positions in their limits and has a
      generation left: all its values are tried, zero but for the measured positions, and its commit is
      written exactly if they all come back. */
  lemma ReleaseReaches(groups: seq<Group>, p: Plan, answers: Answers, h: nat, f: nat)
    requires PlanFor(groups, p) && p.release && h < |groups| && !p.skip[h]
    requires PositionsOk(groups[h], p.row[h], true) && p.counts[h] + 1 <= MAX_GENERATION
    requires f < FIELDS * |p.row[h]|
    ensures Try(h, f, Target(groups[h], p.row[h], true, true)[f]) in Tries(groups, p)
    ensures Commits(groups, p, answers, h) <==> AllBack(answers, h, Target(groups[h], p.row[h], true, true))
  {
    TriesAre(groups, p, Try(h, f, Target(groups[h], p.row[h], true, true)[f]));
  }

  // ----- history

  /** One write to a commit cell: the group, the generation, what its value cells held at that
      moment, and the attempt it belongs to. */
  datatype CommitWrite = CommitWrite(group: nat, generation: nat, values: seq<Double>, attempt: Attempt)

  /** The row of the cycle, whether it is its release, and at the moment of the write the values and
      own generations of all groups. */
  datatype Attempt = Attempt(row: Row, release: bool, staged: seq<seq<Double>>, counts: seq<nat>)

  /** What a group's hardware took over. */
  datatype Adoption = Adoption(group: nat, generation: nat, values: seq<Double>)

  predicate Distinct(log: seq<CommitWrite>) {
    forall i, j | 0 <= i < j < |log| :: !(log[i].group == log[j].group && log[i].generation == log[j].generation)
  }

  predicate AttemptFor(groups: seq<Group>, t: Attempt) {
    RowFor(groups, t.row) && |t.staged| == |t.counts| == |groups|
  }

  /** Group h holds exactly what this row orders for it, with every position in its limits. */
  predicate HoldsOrder(groups: seq<Group>, t: Attempt, h: nat)
    requires AttemptFor(groups, t) && h < |groups|
  {
    && t.staged[h] == Target(groups[h], t.row[h], t.release, t.release || t.counts[h] == 0)
    && PositionsOk(groups[h], t.row[h], t.release)
  }

  /** Group h holds its order; in a normal attempt everyone does. */
  predicate ReadyIn(groups: seq<Group>, t: Attempt, h: nat)
    requires AttemptFor(groups, t) && h < |groups|
  {
    HoldsOrder(groups, t, h) && (!t.release ==> forall k | 0 <= k < |groups| :: HoldsOrder(groups, t, k))
  }

  lemma PlacedIsReady(groups: seq<Group>, p: Plan, answers: Answers, good: seq<bool>, staged: seq<seq<Double>>)
    requires PlanFor(groups, p) && |good| == |staged| == |groups| && Placed(groups, p, answers, good, staged)
    requires p.release || false !in good
    ensures forall h | 0 <= h < |groups| && good[h] ::
      ReadyIn(groups, Attempt(p.row, p.release, staged, p.counts), h) && p.counts[h] + 1 <= MAX_GENERATION && !p.skip[h]
  {
    var t := Attempt(p.row, p.release, staged, p.counts);
    forall h | 0 <= h < |groups| && good[h]
      ensures HoldsOrder(groups, t, h) && p.counts[h] + 1 <= MAX_GENERATION && !p.skip[h]
    {
    }
  }

  lemma SomeoneIsMissing(groups: seq<Group>, p: Plan, answers: Answers, good: seq<bool>, staged: seq<seq<Double>>)
    requires PlanFor(groups, p) && |good| == |staged| == |groups| && Placed(groups, p, answers, good, staged)
    requires !p.release && exists h :: 0 <= h < |groups| && !p.skip[h] && !good[h]
    ensures !Succeeds(groups, p, answers) && forall h | 0 <= h < |groups| :: !Commits(groups, p, answers, h)
  {
    var h :| 0 <= h < |groups| && !p.skip[h] && !good[h];
    assert !InPlace(groups, p, answers, h);
  }

  lemma PlacedCommits(groups: seq<Group>, p: Plan, answers: Answers, good: seq<bool>, staged: seq<seq<Double>>,
                      ok: bool)
    requires PlanFor(groups, p) && |good| == |staged| == |groups| && Placed(groups, p, answers, good, staged)
    requires p.release || false !in good
    requires ok <==> forall h | 0 <= h < |groups| ::
      (p.skip[h] || good[h]) && (good[h] ==> CommitBack(groups, answers, h))
    ensures forall h | 0 <= h < |groups| :: good[h] <==> Commits(groups, p, answers, h)
    ensures forall h | 0 <= h < |groups| && good[h] :: staged[h] == Order(groups, p, h)
    ensures ok <==> Succeeds(groups, p, answers)
  {
    assert !p.release ==> Everyone(groups, p, answers);
    assert forall h | 0 <= h < |groups| :: good[h] <==> InPlace(groups, p, answers, h);
  }

  /** The next generation, with the whole batch its row orders behind it, never a mixture; in a
      normal attempt everyone else's batch of that row is there too. */
  predicate WholeWrite(groups: seq<Group>, w: CommitWrite) {
    var t := w.attempt;
    && AttemptFor(groups, t) && w.group < |groups|
    && w.generation == t.counts[w.group] + 1 && w.values == t.staged[w.group] && ReadyIn(groups, t, w.group)
  }

  predicate Whole(groups: seq<Group>, log: seq<CommitWrite>) {
    forall i | 0 <= i < |log| :: WholeWrite(groups, log[i])
  }

  ghost predicate Backed(log: seq<CommitWrite>, group: nat, generation: nat, values: seq<Double>) {
    exists i | 0 <= i < |log| :: log[i].group == group && log[i].generation == generation && log[i].values == values
  }

  lemma BackedByMore(log: seq<CommitWrite>, more: seq<CommitWrite>, group: nat, generation: nat, values: seq<Double>)
    requires Backed(log, group, generation, values) && log <= more
    ensures Backed(more, group, generation, values)
  {
    var i :| 0 <= i < |log| && log[i].group == group && log[i].generation == generation && log[i].values == values;
    assert more[i] == log[i];
  }

  /** No commit of this group above its generation has been written yet. */
  ghost predicate Unwritten(log: seq<CommitWrite>, group: nat, generation: nat) {
    forall i | 0 <= i < |log| :: log[i].group == group ==> log[i].generation <= generation
  }

  /** The commits from index `from` on are next generations of groups that were good, in this kind of
      attempt. */
  ghost predicate NextOfGood(log: seq<CommitWrite>, from: nat, counts: seq<nat>, good: seq<bool>, release: bool) {
    forall i | from <= i < |log| ::
      log[i].group < |counts| && log[i].group < |good| && good[log[i].group] &&
      log[i].generation == counts[log[i].group] + 1 && log[i].attempt.release == release
  }

  lemma OneMoreOfGood(log: seq<CommitWrite>, w: CommitWrite, from: nat, counts: seq<nat>, good: seq<bool>,
                      release: bool)
    requires NextOfGood(log, from, counts, good, release) && w.group < |counts| && w.group < |good| && good[w.group]
    requires w.generation == counts[w.group] + 1 && w.attempt.release == release
    ensures NextOfGood(log + [w], from, counts, good, release)
  {
  }

  lemma StillUnwritten(log: seq<CommitWrite>, more: seq<CommitWrite>, h: nat, counts: seq<nat>, good: seq<bool>,
                       release: bool)
    requires log <= more && h < |counts| == |good| && Unwritten(log, h, counts[h])
    requires NextOfGood(more, |log|, counts, good, release)
    ensures Unwritten(more, h, counts[h] + 1) && (!good[h] ==> Unwritten(more, h, counts[h]))
  {
    forall i | 0 <= i < |more| && more[i].group == h
      ensures more[i].generation <= counts[h] || (good[h] && more[i].generation == counts[h] + 1)
    {
      if i < |log| {
        assert more[i] == log[i];
      }
    }
  }

  /** No commit twice, none but whole ones, and every adoption backed by one. */
  ghost predicate LogsIn(groups: seq<Group>, log: seq<CommitWrite>, adopted: seq<Adoption>) {
    && Distinct(log) && Whole(groups, log)
    && (forall i | 0 <= i < |adopted| :: Backed(log, adopted[i].group, adopted[i].generation, adopted[i].values))
  }

  /** The writes of the good groups among the first n, in order. */
  function Selected(writes: seq<CommitWrite>, good: seq<bool>, n: nat): seq<CommitWrite>
    requires n <= |writes| == |good|
  {
    if n == 0 then [] else Selected(writes, good, n - 1) + (if good[n - 1] then [writes[n - 1]] else [])
  }

  lemma OneMoreSelected(before: seq<CommitWrite>, log: seq<CommitWrite>, writes: seq<CommitWrite>, good: seq<bool>,
                        n: nat)
    requires n < |writes| == |good| && log == before + Selected(writes, good, n)
    ensures before + Selected(writes, good, n + 1) == if good[n] then log + [writes[n]] else log
  {
  }

  /** The next commit of group h, whole, with none of that number on record yet. */
  ghost predicate MayFollow(groups: seq<Group>, log: seq<CommitWrite>, w: CommitWrite, h: nat, counts: seq<nat>,
                            release: bool) {
    && h < |counts| && w.group == h && w.generation == counts[h] + 1 && w.attempt.release == release
    && WholeWrite(groups, w) && Unwritten(log, h, counts[h])
  }

  lemma OneMoreCommit(groups: seq<Group>, log: seq<CommitWrite>, adopted: seq<Adoption>, w: CommitWrite, h: nat,
                      counts: seq<nat>, release: bool)
    requires LogsIn(groups, log, adopted) && MayFollow(groups, log, w, h, counts, release)
    ensures LogsIn(groups, log + [w], adopted) && Backed(log + [w], h, counts[h] + 1, w.values)
  {
    var more := log + [w];
    assert more[|log|] == w;
    forall i | 0 <= i < |adopted|
      ensures Backed(more, adopted[i].group, adopted[i].generation, adopted[i].values)
    {
      BackedByMore(log, more, adopted[i].group, adopted[i].generation, adopted[i].values);
    }
  }

  /** Another group's commit changes nothing for this one. */
  lemma OtherCommit(log: seq<CommitWrite>, w: CommitWrite, h: nat, generation: nat, values: seq<Double>)
    requires w.group != h
    ensures Unwritten(log, h, generation) ==> Unwritten(log + [w], h, generation)
    ensures Backed(log, h, generation + 1, values) ==> Backed(log + [w], h, generation + 1, values)
  {
    if Backed(log, h, generation + 1, values) {
      BackedByMore(log, log + [w], h, generation + 1, values);
    }
  }

  /** The selected writes keep the logs in order. */
  lemma {:induction false} SelectedKeeps(groups: seq<Group>, log: seq<CommitWrite>, adopted: seq<Adoption>,
                                         writes: seq<CommitWrite>, good: seq<bool>, counts: seq<nat>, release: bool,
                                         n: nat)
    requires n <= |writes| == |good| == |counts| && LogsIn(groups, log, adopted)
    requires forall h | 0 <= h < |good| && good[h] :: MayFollow(groups, log, writes[h], h, counts, release)
    ensures var more := log + Selected(writes, good, n);
      && LogsIn(groups, more, adopted) && NextOfGood(more, |log|, counts, good, release)
      && (forall h | 0 <= h < n && good[h] :: Backed(more, h, counts[h] + 1, writes[h].values))
      && (forall h | n <= h < |good| && good[h] :: Unwritten(more, h, counts[h]))
  {
    if n == 0 {
      assert log + [] == log;
    } else {
      SelectedKeeps(groups, log, adopted, writes, good, counts, release, n - 1);
      var before := log + Selected(writes, good, n - 1);
      OneMoreSelected(log, before, writes, good, n - 1);
      if good[n - 1] {
        OneMoreCommit(groups, before, adopted, writes[n - 1], n - 1, counts, release);
        OneMoreOfGood(before, writes[n - 1], |log|, counts, good, release);
        forall h | 0 <= h < |good| && good[h] && h != n - 1
          ensures h < n ==> Backed(before + [writes[n - 1]], h, counts[h] + 1, writes[h].values)
          ensures n <= h ==> Unwritten(before + [writes[n - 1]], h, counts[h])
        {
          OtherCommit(before, writes[n - 1], h, counts[h], writes[h].values);
        }
      }
    }
  }

  /** A commit of this group in this kind of attempt has been written since. */
  ghost predicate Committed(log: seq<CommitWrite>, from: nat, h: nat, release: bool) {
    exists i :: from <= i < |log| && log[i].group == h && log[i].attempt.release == release
  }

  lemma CommittedSince(log: seq<CommitWrite>, more: seq<CommitWrite>, from: nat, h: nat)
    requires log <= more && from <= |log| && forall i | from <= i < |log| :: !log[i].attempt.release
    ensures Committed(more, |log|, h, true) <==> Committed(more, from, h, true)
  {
    forall i | from <= i < |log|
      ensures !more[i].attempt.release
    {
      assert more[i] == log[i];
    }
  }

  /** A commit that is there now and was not before has been written since. */
  lemma BackedIsNew(log: seq<CommitWrite>, more: seq<CommitWrite>, h: nat, counts: seq<nat>, good: seq<bool>,
                    release: bool, values: seq<Double>)
    requires log <= more && h < |counts| && Unwritten(log, h, counts[h]) && Backed(more, h, counts[h] + 1, values)
    requires NextOfGood(more, |log|, counts, good, release)
    ensures Committed(more, |log|, h, release)
  {
    forall i | 0 <= i < |log|
      ensures !(more[i].group == h && more[i].generation == counts[h] + 1)
    {
      assert more[i] == log[i];
    }
    var i :| 0 <= i < |more| && more[i].group == h && more[i].generation == counts[h] + 1 && more[i].values == values;
  }

  /** The commit cell is at most one ahead of the accepted generation, and whatever is staged
      under a generation not accepted yet is the batch its commit write vouched for. `slack` is
      one once the adapter has stopped: the cell may then be ahead of its own count too. */
  ghost predicate LinkIn(log: seq<CommitWrite>, h: nat, last: nat, cell: nat, own: nat, staged: seq<Double>,
                         slack: nat) {
    && last <= cell <= last + 1 && own <= cell <= own + slack && cell <= MAX_GENERATION
    && (cell == last + 1 ==> Backed(log, h, cell, staged))
    && Unwritten(log, h, own + slack)
  }

  /** The commit cell of a group that was written to: still the old one, or the next generation
      with exactly the staged values behind it. */
  ghost predicate VouchIn(log: seq<CommitWrite>, h: nat, cell: nat, own: nat, staged: seq<Double>) {
    (cell == own || cell == own + 1) && own + 1 <= MAX_GENERATION && Backed(log, h, own + 1, staged)
  }

  class PairAdapter {
    const groups: seq<Group>
    var staged: seq<seq<Double>>
    var cell: seq<nat>
    var generation: seq<nat>
    var terminal: bool
    var hardware: seq<Commit>
    ghost var commits: seq<CommitWrite>
    ghost var adopted: seq<Adoption>
    ghost var tries: seq<Try>

    ghost predicate Shape()
      reads this
    {
      && 1 <= |groups| <= 4
      && |staged| == |cell| == |generation| == |hardware| == |groups|
      && (forall h | 0 <= h < |groups| :: |staged[h]| == FIELDS * |groups[h].limits|)
    }

    ghost predicate LinkedBy(h: nat, slack: nat)
      requires Shape() && h < |groups|
      reads this
    {
      LinkIn(commits, h, hardware[h].last, cell[h], generation[h], staged[h], slack)
    }

    ghost predicate Linked(h: nat)
      requires Shape() && h < |groups|
      reads this
    {
      LinkedBy(h, if terminal then 1 else 0)
    }

    ghost predicate LogsOk()
      reads this
    {
      LogsIn(groups, commits, adopted)
    }

    ghost predicate Inv()
      reads this
    {
      Shape() && LogsOk() && forall h | 0 <= h < |groups| :: Linked(h)
    }

    /** on_activate has checked that every group still reports generation zero. */
    constructor (groups: seq<Group>, deadlines: seq<int>, initial: seq<seq<Double>>)
      requires 1 <= |groups| <= 4 && |deadlines| == |initial| == |groups|
      requires forall h | 0 <= h < |groups| :: |initial[h]| == FIELDS * |groups[h].limits|
      ensures Inv() && !terminal && commits == [] && adopted == [] && tries == [] && this.groups == groups
    {
      this.groups := groups;
      staged := initial;
      cell := seq(|groups|, _ => 0);
      generation := seq(|groups|, _ => 0);
      terminal := false;
      hardware := seq(|groups|, h requires 0 <= h < |groups| => Commit(0, false, false, deadlines[h]));
      commits := [];
      adopted := [];
      tries := [];
    }

    // ----- writeValue

    /** Write one value and read it back; true exactly if the very value was read back. */
    method WriteValue(h: nat, f: nat, value: Double, answer: Answer) returns (ok: bool)
      requires Shape() && h < |groups| && f < |staged[h]|
      modifies this`staged, this`tries
      ensures Shape() && tries == old(tries) + [Try(h, f, value)]
      ensures staged == old(staged)[h := old(staged)[h][f := Held(answer, old(staged)[h][f])]]
      ensures ok <==> Back(answer, value)
      ensures ok ==> staged[h][f] == value
    {
      tries := tries + [Try(h, f, value)];
      if !answer.taken {
        assert staged[h] == staged[h][f := staged[h][f]];
        return false;
      }
      staged := staged[h := staged[h][f := answer.stored]];
      var read := if answer.read then Some(staged[h][f]) else None;
      ok := read.Some? && read.value.Fin? && read.value == value;
    }

    /** Write and read back all values of one group; every one is tried. */
    method WriteGroup(h: nat, target: seq<Double>, answers: Answers) returns (good: bool)
      requires Shape() && h < |groups| && |target| == |staged[h]|
      modifies this`staged, this`tries
      ensures Shape() && |staged[h]| == |target| && tries == old(tries) + GroupTries(h, target)
      ensures forall k | 0 <= k < |groups| && k != h :: staged[k] == old(staged)[k]
      ensures good <==> AllBack(answers, h, target)
      ensures good ==> staged[h] == target
    {
      good := true;
      for f := 0 to |target|
        invariant Shape() && |staged[h]| == |target| && tries == old(tries) + GroupTries(h, target)[..f]
        invariant forall k | 0 <= k < |groups| && k != h :: staged[k] == old(staged)[k]
        invariant good <==> forall i | 0 <= i < f :: Back(answers(h, i), target[i])
        invariant good ==> forall i | 0 <= i < f :: staged[h][i] == target[i]
      {
        var ok := WriteValue(h, f, target[f], answers(h, f));
        good := good && ok;
        assert GroupTries(h, target)[..f + 1] == GroupTries(h, target)[..f] + [Try(h, f, target[f])];
      }
      assert GroupTries(h, target)[..|target|] == GroupTries(h, target);
    }

    // ----- writeBatch

    /** May this group be written in this attempt? */
    ghost predicate Clean(h: nat)
      requires Shape() && h < |groups|
      reads this
    {
      cell[h] == hardware[h].last == generation[h] && Unwritten(commits, h, generation[h])
    }

    function PlanOf(row: Row, release: bool, skip: seq<bool>): Plan
      reads this
    {
      Plan(row, release, skip, generation)
    }

    /** The values of one group, if it takes part. */
    method WriteOne(p: Plan, h: nat, answers: Answers) returns (good: bool)
      requires Shape() && PlanFor(groups, p) && h < |groups|
      modifies this`staged, this`tries
      ensures Shape() && forall k | 0 <= k < |groups| && k != h :: staged[k] == old(staged)[k]
      ensures good <==> InPlace(groups, p, answers, h)
      ensures good ==> staged[h] == Order(groups, p, h)
      ensures p.skip[h] ==> staged[h] == old(staged)[h]
      ensures tries == old(tries) + Parts(groups, p)(h)
    {
      good := false;
      if TakesPart(groups, p, h) {
        good := WriteGroup(h, Order(groups, p, h), answers);
      }
    }

    /** First half: the values of every group that takes part. */
    method WriteValues(p: Plan, answers: Answers) returns (good: seq<bool>, all: bool)
      requires Shape() && PlanFor(groups, p)
      modifies this`staged, this`tries
      ensures Shape() && |good| == |groups| && tries == old(tries) + Tries(groups, p)
      ensures Placed(groups, p, answers, good, staged)
      ensures all <==> NobodyFailed(p.skip, good)
      ensures forall h | 0 <= h < |groups| && p.skip[h] :: staged[h] == old(staged)[h]
    {
      good, all := [], true;
      for h := 0 to |groups|
        invariant Shape() && |good| == h && tries == old(tries) + Joined(Parts(groups, p), h)
        invariant Placed(groups, p, answers, good, staged)
        invariant all <==> NobodyFailed(p.skip, good)
        invariant forall k | 0 <= k < |groups| && p.skip[k] :: staged[k] == old(staged)[k]
      {
        ghost var before, log := staged, tries;
        var ok := WriteOne(p, h, answers);
        OneMorePart(old(tries), log, Parts(groups, p), h);
        OneMorePlaced(groups, p, answers, good, ok, before, staged);
        OneMoreAsked(p.skip, good, ok);
        good, all := good + [ok], all && (p.skip[h] || ok);
      }
    }

    /** The values of group h are in place; in a normal attempt everyone's are. */
    ghost predicate Ready(row: Row, release: bool, h: nat)
      requires Shape() && RowFor(groups, row) && h < |groups|
      reads this
    {
      ReadyIn(groups, Attempt(row, release, staged, generation), h)
    }

    /** One commit cell: refused, or stored exactly; then read back. */
    method WriteCommit(h: nat, answer: Answer, ghost w: CommitWrite) returns (ok: bool)
      requires Shape() && h < |groups|
      modifies this`cell, this`commits
      ensures Shape() && commits == old(commits) + [w]
      ensures cell == old(cell)[h := if answer.taken then generation[h] + 1 else old(cell)[h]]
      ensures ok <==> answer.taken && answer.read
    {
      commits := commits + [w];
      cell := cell[h := if answer.taken then generation[h] + 1 else cell[h]];
      ok := answer.taken && answer.read && cell[h] == generation[h] + 1;
    }

    ghost predicate Vouched(h: nat)
      requires Shape() && h < |groups|
      reads this
    {
      VouchIn(commits, h, cell[h], generation[h], staged[h])
    }

    /** What a commit write of each group would put on record now. */
    ghost function CommitWrites(row: Row, release: bool): (w: seq<CommitWrite>)
      requires Shape()
      reads this
      ensures |w| == |groups|
    {
      var t, counts, values := Attempt(row, release, staged, generation), generation, staged;
      seq(|groups|, h requires 0 <= h < |groups| => CommitWrite(h, counts[h] + 1, values[h], t))
    }

    /** Second half: the commit cells of the groups whose values all came back. */
    method WriteCommits(good: seq<bool>, answers: Answers, ghost writes: seq<CommitWrite>) returns (all: bool)
      requires Shape() && |good| == |groups| == |writes|
      modifies this`cell, this`commits
      ensures Shape() && commits == old(commits) + Selected(writes, good, |groups|)
      ensures CellsAre(groups, good, answers, generation, old(cell), cell, |groups|)
      ensures all <==> CommitsBack(groups, good, answers, |groups|)
    {
      all := true;
      for h := 0 to |groups|
        invariant Shape() && commits == old(commits) + Selected(writes, good, h)
        invariant CellsAre(groups, good, answers, generation, old(cell), cell, h)
        invariant all <==> CommitsBack(groups, good, answers, h)
      {
        ghost var before, log := cell, commits;
        if good[h] {
          var written := WriteCommit(h, CommitAnswer(groups, answers, h), writes[h]);
          all := all && written;
        }
        OneMoreSelected(old(commits), log, writes, good, h);
        OneMoreCell(groups, good, answers, generation, old(cell), before, cell, h);
        OneMoreBack(groups, good, answers, h);
      }
    }

    /** The same, with what it leaves of the logs and of the groups that are not left out. */
    method CommitBatch(good: seq<bool>, release: bool, answers: Answers, ghost skip: seq<bool>, ghost row: Row)
      returns (all: bool)
      requires Shape() && LogsOk() && |good| == |groups| == |skip| && RowFor(groups, row)
      requires forall h | 0 <= h < |groups| && good[h] :: !skip[h] && generation[h] + 1 <= MAX_GENERATION
      requires forall h | 0 <= h < |groups| && !skip[h] :: Clean(h)
      requires forall h | 0 <= h < |groups| && good[h] :: Ready(row, release, h)
      modifies this`cell, this`commits
      ensures Shape() && LogsOk() && old(commits) <= commits && NewCommits(|old(commits)|, good, release)
      ensures forall h | 0 <= h < |groups| && good[h] :: Vouched(h)
      ensures CellsAre(groups, good, answers, generation, old(cell), cell, |groups|)
      ensures forall h | 0 <= h < |groups| && !skip[h] :: if good[h] then LinkedBy(h, 1) else Clean(h)
      ensures all <==> CommitsBack(groups, good, answers, |groups|)
    {
      ghost var writes := CommitWrites(row, release);
      forall h | 0 <= h < |groups| && good[h]
        ensures MayFollow(groups, commits, writes[h], h, generation, release)
      {
      }
      SelectedKeeps(groups, commits, adopted, writes, good, generation, release, |groups|);
      all := WriteCommits(good, answers, writes);
      forall h | 0 <= h < |groups| && !skip[h]
        ensures if good[h] then LinkedBy(h, 1) else Clean(h)
      {
        StillUnwritten(old(commits), commits, h, generation, good, release);
      }
    }

    ghost predicate NewCommits(from: nat, good: seq<bool>, release: bool)
      requires Shape()
      reads this
    {
      NextOfGood(commits, from, generation, good, release)
    }

    /** Both halves of one attempt. Every value of every group that takes part is tried; `touched`, the
        groups whose commit cell is written to, are those whose values all came back, and in a normal
        attempt nobody unless everybody. */
    method WriteBatch(p: Plan, answers: Answers) returns (ok: bool, touched: seq<bool>)
      requires Shape() && LogsOk() && PlanFor(groups, p) && p.counts == generation && (!p.release ==> true !in p.skip)
      requires forall h | 0 <= h < |groups| && !p.skip[h] :: Clean(h)
      modifies this`staged, this`cell, this`commits, this`tries
      ensures Shape() && LogsOk() && |touched| == |groups| && tries == old(tries) + Tries(groups, p)
      ensures forall h | 0 <= h < |groups| :: touched[h] <==> Commits(groups, p, answers, h)
      ensures old(commits) <= commits && NewCommits(|old(commits)|, touched, p.release)
      ensures CellsAre(groups, touched, answers, generation, old(cell), cell, |groups|)
      ensures forall h | 0 <= h < |groups| && p.skip[h] :: staged[h] == old(staged)[h]
      ensures forall h | 0 <= h < |groups| && touched[h] :: Vouched(h) && staged[h] == Order(groups, p, h)
      ensures forall h | 0 <= h < |groups| && !p.skip[h] :: if touched[h] then LinkedBy(h, 1) else Clean(h)
      ensures ok <==> Succeeds(groups, p, answers)
    {
      var good, all := WriteValues(p, answers);
      if !p.release && !all {
        SomeoneIsMissing(groups, p, answers, good, staged);
        return false, seq(|groups|, _ => false);
      }
      touched := good;
      PlacedIsReady(groups, p, answers, good, staged);
      var committed := CommitBatch(good, p.release, answers, p.skip, p.row);
      ok := all && committed;
      PlacedCommits(groups, p, answers, good, staged, ok);
    }

    // ----- update_and_write_commands

    method NextGeneration()
      requires Shape() && LogsOk() && !terminal
      requires forall h | 0 <= h < |groups| ::
        Vouched(h) && cell[h] == generation[h] + 1 && hardware[h].last == generation[h]
      requires forall h | 0 <= h < |groups| :: Unwritten(commits, h, generation[h] + 1)
      modifies this`generation
      ensures Inv() && |generation| == |old(generation)|
      ensures forall h | 0 <= h < |groups| :: generation[h] == old(generation)[h] + 1
    {
      var next := generation;
      for h := 0 to |groups|
        invariant |next| == |groups|
        invariant forall k | 0 <= k < |groups| :: next[k] == generation[k] + (if k < h then 1 else 0)
      {
        next := next[h := next[h] + 1];
      }
      generation := next;
    }

    /** The commits from index `from` on are exactly those of the groups whose commit this plan writes. */
    ghost predicate CommitsExactly(from: nat, p: Plan, answers: Answers)
      requires PlanFor(groups, p)
      reads this
    {
      forall h | 0 <= h < |groups| :: Commits(groups, p, answers, h) <==> Committed(commits, from, h, p.release)
    }

    /** The adapter stops for good: the released batch of every group not left out is tried, and
        committed where it came back. */
    method Stop(row: Row, skip: seq<bool>, answers: Answers)
      requires Shape() && LogsOk() && RowFor(groups, row) && |skip| == |groups|
      requires forall h | 0 <= h < |groups| ::
        if skip[h] then LinkedBy(h, 1) else Clean(h) && generation[h] <= MAX_GENERATION
      modifies this`staged, this`cell, this`commits, this`terminal, this`tries
      ensures Inv() && terminal && old(commits) <= commits
      ensures tries == old(tries) + Tries(groups, PlanOf(row, true, skip))
      ensures CommitsExactly(|old(commits)|, PlanOf(row, true, skip), answers)
    {
      terminal := true;
      var _, touched := WriteBatch(PlanOf(row, true, skip), answers);
      forall h | 0 <= h < |groups|
        ensures Linked(h)
      {
        if skip[h] && cell[h] == hardware[h].last + 1 {
          BackedByMore(old(commits), commits, h, cell[h], staged[h]);
        }
      }
      forall h | 0 <= h < |groups|
        ensures touched[h] <==> Committed(commits, |old(commits)|, h, true)
      {
        if touched[h] {
          BackedIsNew(old(commits), commits, h, generation, touched, true, staged[h]);
        }
      }
    }

    /** The normal attempt. On failure either nobody's commit was written to, or everybody's. */
    method Normal(row: Row, answers: Answers) returns (ok: bool, all: bool)
      requires Shape() && LogsOk() && RowFor(groups, row) && !terminal
      requires forall h | 0 <= h < |groups| :: Clean(h) && generation[h] <= MAX_GENERATION
      modifies this`staged, this`cell, this`commits, this`generation, this`tries
      ensures Shape() && LogsOk() && old(commits) <= commits
      ensures ok ==> Inv()
      ensures ok ==> forall h | 0 <= h < |groups| ::
        generation[h] == cell[h] == old(generation)[h] + 1 && hardware[h].last == old(generation)[h] &&
        staged[h] == Target(groups[h], row[h], false, old(generation)[h] == 0)
      ensures !ok ==> generation == old(generation)
      ensures !ok ==> forall h | 0 <= h < |groups| :: if all then LinkedBy(h, 1) else Clean(h)
      ensures ok <==> Succeeds(groups, old(PlanOf(row, false, Nobody())), answers)
      ensures all <==> Everyone(groups, old(PlanOf(row, false, Nobody())), answers)
      ensures tries == old(tries) + Tries(groups, old(PlanOf(row, false, Nobody())))
      ensures forall i | |old(commits)| <= i < |commits| :: !commits[i].attempt.release
    {
      var touched;
      ok, touched := WriteBatch(PlanOf(row, false, Nobody()), answers);
      CommitsTogether(groups, PlanOf(row, false, Nobody()), answers);
      all := touched[0];
      if ok {
        NextGeneration();
      }
    }

    function Nobody(): (skip: seq<bool>)
      ensures |skip| == |groups| && true !in skip
    {
      seq(|groups|, _ => false)
    }

    /** Group h reported exactly its own generation. */
    predicate Heard(heard: seq<bool>, h: nat)
      requires Shape() && |heard| == |groups| && h < |groups|
      reads this
    {
      heard[h] && hardware[h].last == generation[h]
    }

    predicate Exhausted()
      requires Shape()
      reads this
    {
      exists h :: 0 <= h < |groups| && generation[h] + 1 > MAX_GENERATION
    }

    /** A normal attempt is made: no check fired. */
    predicate Attempts(trouble: bool, heard: seq<bool>)
      requires Shape() && |heard| == |groups|
      reads this
    {
      !trouble && !Exhausted() && forall h | 0 <= h < |groups| :: Heard(heard, h)
    }

    /** Who did not report its own generation. */
    function Missing(heard: seq<bool>): (skip: seq<bool>)
      requires Shape() && |heard| == |groups|
      reads this
      ensures |skip| == |groups| && forall h | 0 <= h < |groups| :: skip[h] <==> !Heard(heard, h)
    {
      var accepted, own := hardware, generation;
      seq(|groups|, h requires 0 <= h < |groups| => !(heard[h] && accepted[h].last == own[h]))
    }

    /** Everybody's commit is written in the normal attempt of this cycle. */
    predicate CommitsNormally(row: Row, trouble: bool, heard: seq<bool>, normal: Answers)
      requires Shape() && RowFor(groups, row) && |heard| == |groups|
      reads this
    {
      Attempts(trouble, heard) && Everyone(groups, PlanOf(row, false, Nobody()), normal)
    }

    /** The release of a stopping cycle leaves out a group whose commit it has written, or that did not
        report its own generation. */
    function ReleasePlan(row: Row, trouble: bool, heard: seq<bool>, normal: Answers): (p: Plan)
      requires Shape() && RowFor(groups, row) && |heard| == |groups|
      reads this
      ensures PlanFor(groups, p) && p.release && p.row == row && p.counts == generation
      ensures forall h | 0 <= h < |groups| ::
        p.skip[h] <==> !Heard(heard, h) || CommitsNormally(row, trouble, heard, normal)
    {
      var written := CommitsNormally(row, trouble, heard, normal);
      PlanOf(row, true, if Attempts(trouble, heard) then seq(|groups|, _ => written) else Missing(heard))
    }

    /** What the normal attempt of this cycle tries, if it makes one. */
    function NormalTries(row: Row, trouble: bool, heard: seq<bool>): seq<Try>
      requires Shape() && RowFor(groups, row) && |heard| == |groups|
      reads this
    {
      if Attempts(trouble, heard) then Tries(groups, PlanOf(row, false, Nobody())) else []
    }

    /** One adapter cycle. `trouble`: one of the checks on states, period, references, deviation or
        temperature fired. `heard`: which groups' accepted generation could be read. `quietly`: an
        exhausted generation was the last thing noted.

        A cycle is fine exactly if no check fires and every value and commit comes back. Any other
        stops the adapter for good; unless it ends quietly it tries the released batch of every group
        it can still release, and writes its commit exactly if all its values come back. */
    method Cycle(row: Row, trouble: bool, heard: seq<bool>, normal: Answers, release: Answers, quietly: bool)
      returns (fine: bool)
      requires Inv() && RowFor(groups, row) && |heard| == |groups|
      modifies this`staged, this`cell, this`commits, this`generation, this`terminal, this`tries
      ensures Inv() && old(commits) <= commits && terminal == !fine
      ensures fine <==>
        (old(!terminal && Attempts(trouble, heard)) && Succeeds(groups, old(PlanOf(row, false, Nobody())), normal))
      ensures fine ==> tries == old(tries) + old(NormalTries(row, trouble, heard))
      ensures fine ==> forall h | 0 <= h < |groups| ::
        generation[h] == cell[h] == old(generation)[h] + 1 && hardware[h].last == old(generation)[h] &&
        staged[h] == Target(groups[h], row[h], false, old(generation)[h] == 0)
      ensures old(terminal) || (old(Exhausted()) && quietly) ==>
        commits == old(commits) && cell == old(cell) && staged == old(staged) && tries == old(tries)
      ensures !fine && !old(terminal) && !(old(Exhausted()) && quietly) ==>
        tries == old(tries) + old(NormalTries(row, trouble, heard)) +
                 Tries(groups, old(ReleasePlan(row, trouble, heard, normal)))
      ensures !fine && !old(terminal) && !(old(Exhausted()) && quietly) ==>
        CommitsExactly(|old(commits)|, old(ReleasePlan(row, trouble, heard, normal)), release)
    {
      fine := false;
      if terminal {
        return;
      }
      if Exhausted() && quietly {
        StopQuietly();
        return;
      }
      forall h | 0 <= h < |groups|
        ensures LinkedBy(h, 1) && generation[h] <= MAX_GENERATION && (Heard(heard, h) ==> Clean(h))
      {
        assert Linked(h);
      }
      if Attempts(trouble, heard) {
        var all;
        fine, all := Normal(row, normal);
        if !fine {
          StopAfterFailure(row, all, release, |old(commits)|);
        }
      } else {
        Stop(row, Missing(heard), release);
      }
    }

    /** The release after a failed normal attempt, whose commits are none of its own. */
    method StopAfterFailure(row: Row, all: bool, answers: Answers, ghost from: nat)
      requires Shape() && LogsOk() && RowFor(groups, row) && from <= |commits|
      requires forall h | 0 <= h < |groups| ::
        if all then LinkedBy(h, 1) else Clean(h) && generation[h] <= MAX_GENERATION
      requires forall i | from <= i < |commits| :: !commits[i].attempt.release
      modifies this`staged, this`cell, this`commits, this`terminal, this`tries
      ensures Inv() && terminal && old(commits) <= commits
      ensures tries == old(tries) + Tries(groups, PlanOf(row, true, seq(|groups|, _ => all)))
      ensures CommitsExactly(from, PlanOf(row, true, seq(|groups|, _ => all)), answers)
    {
      Stop(row, seq(|groups|, _ => all), answers);
      forall h | 0 <= h < |groups|
        ensures Committed(commits, |old(commits)|, h, true) <==> Committed(commits, from, h, true)
      {
        CommittedSince(old(commits), commits, from, h);
      }
    }

    /** Generation numbers used up: stop without an error and without another write. */
    method StopQuietly()
      requires Inv() && !terminal
      modifies this`terminal
      ensures Inv() && terminal
    {
      terminal := true;
      forall h | 0 <= h < |groups|
        ensures Linked(h)
      {
        assert old(Linked(h));
      }
    }

    // ----- writePair of one group

    /** The hardware side of one cycle; `held` when it may not admit anything, `published` when the
        stream takes what was accepted. Neither a gap nor a rollback nor a malformed generation is ever
        what it finds. */
    method HardwareWrite(h: nat, now: int, held: bool, published: bool) returns (reason: Reason)
      requires Inv() && h < |groups|
      modifies this`hardware, this`adopted
      ensures Inv() && reason !in {Gap, Rollback, InvalidGeneration} && hardware == old(hardware)[h := hardware[h]]
      ensures adopted == old(adopted) + if hardware[h].last != old(hardware)[h].last
                                        then [Adoption(h, cell[h], staged[h])] else []
      ensures hardware[h].last != old(hardware)[h].last ==> hardware[h].last == cell[h]
      ensures if held then reason == FeedbackPending && hardware[h] == old(hardware)[h]
              else Processed(groups[h].bounds, old(hardware)[h], Fin(cell[h] as real), staged[h], now, published,
                             hardware[h], reason)
    {
      if held {
        return FeedbackPending;
      }
      assert Linked(h);
      WholeNumberIsGeneration(cell[h]);
      var number := Fin(cell[h] as real);
      var inspected := Inspection(groups[h].bounds, hardware[h], number, staged[h], now);
      InspectAnswers(groups[h].bounds, hardware[h], number, staged[h], now, inspected.1);
      reason := inspected.1;
      hardware := hardware[h := if reason == Accepted then Accept(inspected.0, number) else inspected.0];
      if reason == Accepted {
        adopted := adopted + [Adoption(h, cell[h], staged[h])];
        if !published {
          hardware := hardware[h := hardware[h].(latched := true)];
          reason := PublishFailed;
        }
      }
      forall k | 0 <= k < |groups|
        ensures Linked(k)
      {
        assert old(Linked(k));
      }
    }

    /** Any number of control cycles, with every group's write held back or not at will. Over the
        whole run no commit is written twice, none before its whole batch was read back (in a
        normal attempt, everyone's batch), and every adopted batch is the one behind its commit. */
    method Run(cycles: nat)
      requires Inv()
      modifies this
      ensures Inv() && Distinct(commits) && Whole(groups, commits)
      ensures forall i | 0 <= i < |adopted| ::
        Backed(commits, adopted[i].group, adopted[i].generation, adopted[i].values)
    {
      for n := 0 to cycles
        invariant Inv()
      {
        var row: Row := *;
        var trouble: bool := *;
        var heard: seq<bool> := *;
        var normal: Answers := *;
        var release: Answers := *;
        var quietly: bool := *;
        if RowFor(groups, row) && |heard| == |groups| {
          var _ := Cycle(row, trouble, heard, normal, release, quietly);
        }
        for h := 0 to |groups|
          invariant Inv()
        {
          var now: int := *;
          var held: bool := *;
          var published: bool := *;
          var _ := HardwareWrite(h, now, held, published);
        }
      }
    }
  }
}
