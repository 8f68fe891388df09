/**
 The lock-free snapshot of include/bxi_hardware/atomic_snapshot.hpp: one writer, any number of
 readers, every access one sequentially consistent step on one word.

 `begun` remembers every publication in the order its first version store happened; nothing in
 the protocol reads it. Version 2k means that k publications are complete, 2k + 1 that number
 k + 1 is being stored.
 */
module Seqlock {

  datatype Writer = Resting | Storing(next: nat)

  datatype Memory<W> = Memory(version: nat, words: seq<W>, writer: Writer, begun: seq<seq<W>>)

  // ----- publish, one store at a time

  predicate CanBegin<W>(m: Memory<W>, batch: seq<W>) {
    m.writer.Resting? && |batch| == |m.words|
  }

  function Begin<W>(m: Memory<W>, batch: seq<W>): Memory<W> {
    m.(version := m.version + 1, writer := Storing(0), begun := m.begun + [batch])
  }

  predicate CanStore<W>(m: Memory<W>) {
    m.writer.Storing? && m.writer.next < |m.words| && m.begun != [] &&
    |m.begun[|m.begun| - 1]| == |m.words|
  }

  function Store<W>(m: Memory<W>): Memory<W>
    requires CanStore(m)
  {
    var batch := m.begun[|m.begun| - 1];
    m.(words := m.words[m.writer.next := batch[m.writer.next]], writer := Storing(m.writer.next + 1))
  }

  predicate CanEnd<W>(m: Memory<W>) {
    m.writer.Storing? && m.writer.next == |m.words|
  }

  function End<W>(m: Memory<W>): Memory<W> {
    m.(version := m.version + 1, writer := Resting)
  }

  /** Publications whose second version store has happened. */
  function Completed<W>(m: Memory<W>): nat {
    m.version / 2
  }

  ghost predicate MemoryOk<W>(m: Memory<W>) {
    && (forall k | 0 <= k < |m.begun| :: |m.begun[k]| == |m.words|)
    && (match m.writer
        case Resting =>
          && m.version == 2 * |m.begun|
          && (m.begun != [] ==> m.words == m.begun[|m.begun| - 1])
        case Storing(next) =>
          && m.begun != []
          && m.version == 2 * |m.begun| - 1
          && next <= |m.words|
          && (forall w | 0 <= w < next :: m.words[w] == m.begun[|m.begun| - 1][w]))
  }

  // ----- tryRead, one load at a time

  datatype Phase<W> =
    | Off
    | Opening
    | Loading(before: nat, scratch: seq<W>)
    | Won(before: nat, scratch: seq<W>)
    | Lost

  /** `newest` is the publication number of the reader's last successful read, 0 before any. */
  datatype Reader<W> = Reader(phase: Phase<W>, attempts: nat, newest: nat)

  function Start<W>(r: Reader<W>): Reader<W> {
    r.(phase := Opening, attempts := 1)
  }

  function Retry<W>(r: Reader<W>): Reader<W> {
    if r.attempts < 2 then r.(phase := Opening, attempts := r.attempts + 1) else r.(phase := Lost)
  }

  predicate Reading<W>(r: Reader<W>) {
    r.phase.Opening? || r.phase.Loading?
  }

  /** The next load of a running tryRead. */
  function Load<W(==)>(m: Memory<W>, r: Reader<W>): Reader<W> {
    match r.phase
    case Opening =>
      if m.version == 0 || m.version % 2 == 1 then Retry(r) else r.(phase := Loading(m.version, []))
    case Loading(before, scratch) =>
      if |scratch| < |m.words| then r.(phase := Loading(before, scratch + [m.words[|scratch|]]))
      else if m.version == before then r.(phase := Won(before, scratch), newest := before / 2)
      else Retry(r)
    case _ => r
  }

  /** What a reader knows while it runs: as long as the version it opened with still stands, what
      it has copied so far is the head of that publication. */
  ghost predicate ReaderOk<W>(m: Memory<W>, r: Reader<W>) {
    && r.attempts <= 2
    && 2 * r.newest <= m.version
    && (match r.phase
        case Loading(before, scratch) =>
          && before % 2 == 0 && 0 < before <= m.version
          && r.newest <= before / 2 <= |m.begun|
          && |scratch| <= |m.words|
          && (m.version == before ==> scratch <= m.begun[before / 2 - 1])
        case Won(before, scratch) =>
          && 0 < before / 2 == r.newest <= |m.begun|
          && scratch == m.begun[before / 2 - 1]
        case _ => true)
  }

  // ----- every step keeps both predicates

  lemma WriterKeepsMemory<W>(m: Memory<W>, batch: seq<W>)
    requires MemoryOk(m)
    ensures CanBegin(m, batch) ==> MemoryOk(Begin(m, batch))
    ensures CanStore(m) ==> MemoryOk(Store(m))
    ensures CanEnd(m) ==> MemoryOk(End(m))
  {
    if CanEnd(m) {
      assert m.words == m.begun[|m.begun| - 1];
    }
  }

  lemma WriterKeepsReader<W>(m: Memory<W>, batch: seq<W>, r: Reader<W>)
    requires MemoryOk(m) && ReaderOk(m, r)
    ensures CanBegin(m, batch) ==> ReaderOk(Begin(m, batch), r)
    ensures CanStore(m) ==> ReaderOk(Store(m), r)
    ensures CanEnd(m) ==> ReaderOk(End(m), r)
  {
  }

  lemma LoadKeepsReader<W>(m: Memory<W>, r: Reader<W>)
    requires MemoryOk(m) && ReaderOk(m, r)
    ensures ReaderOk(m, Load(m, r))
    ensures r.newest <= Load(m, r).newest
  {
    match r.phase
    case Loading(before, scratch) =>
      if m.version == before {
        assert m.writer.Resting? && m.words == m.begun[before / 2 - 1];
        if |scratch| == |m.words| {
          assert scratch == m.begun[before / 2 - 1];
        }
      }
    case _ =>
  }

  /** The load that completes a read returns the newest publication begun, and that one is
      complete: no torn batch and no outdated one. */
  lemma WinningLoadIsNewest<W>(m: Memory<W>, r: Reader<W>)
    requires MemoryOk(m) && ReaderOk(m, r)
    requires Reading(r) && Load(m, r).phase.Won?
    ensures m.writer.Resting? && Completed(m) == |m.begun| > 0
    ensures Load(m, r).phase.scratch == m.begun[|m.begun| - 1] == m.words
    ensures Load(m, r).newest == |m.begun|
  {
    LoadKeepsReader(m, r);
  }

  /** Loads a read can still make: two attempts of one opening load, one load per word and one
      closing load. */
  function LoadsLeft<W>(r: Reader<W>, size: nat): nat {
    var later := if r.attempts < 2 then size + 2 else 0;
    match r.phase
    case Opening => size + 2 + later
    case Loading(_, scratch) => (if |scratch| <= size then size - |scratch| else 0) + 1 + later
    case _ => 0
  }

  /** tryRead is wait-free: whatever the writer does, each load uses up one of a fixed number. */
  lemma LoadsRunOut<W>(m: Memory<W>, r: Reader<W>)
    requires Reading(r) && 1 <= r.attempts <= 2
    requires r.phase.Loading? ==> |r.phase.scratch| <= |m.words|
    ensures LoadsLeft(Load(m, r), |m.words|) < LoadsLeft(r, |m.words|) <= 2 * (|m.words| + 2)
  {
  }

  // ----- when a read succeeds

  /** Several loads with nothing stored in between. */
  function Loads<W(==)>(m: Memory<W>, r: Reader<W>, n: nat): Reader<W> {
    if n == 0 then r else Load(m, Loads(m, r, n - 1))
  }

  lemma {:induction false} CopiesWords<W>(m: Memory<W>, r: Reader<W>, n: nat)
    requires m.version > 0 && m.version % 2 == 0 && r.phase.Opening? && n <= |m.words|
    ensures Loads(m, r, n + 1) == r.(phase := Loading(m.version, m.words[..n]))
  {
    if n == 0 {
      assert Loads(m, r, 0) == r;
    } else {
      CopiesWords(m, r, n - 1);
      assert m.words[..n - 1] + [m.words[n - 1]] == m.words[..n];
    }
  }

  /** A read that begins with something published and nothing being stored, and is left alone for
      its loads, succeeds at its first attempt with what is there. */
  lemma QuietReadWins<W>(m: Memory<W>, r: Reader<W>)
    requires m.version > 0 && m.version % 2 == 0
    ensures Loads(m, Start(r), |m.words| + 2) == Reader(Won(m.version, m.words), 1, m.version / 2)
  {
    CopiesWords(m, Start(r), |m.words|);
    assert m.words[..|m.words|] == m.words;
  }

  /** An attempt fails exactly for nothing published or a store under way at its opening load, or for
      another version at its closing one; the second failure ends the read, the first does not. */
  lemma FailsExactly<W>(m: Memory<W>, r: Reader<W>)
    requires Reading(r) && 1 <= r.attempts <= 2
    ensures var r' := Load(m, r);
      var bad := match r.phase
                 case Opening => m.version == 0 || m.version % 2 == 1
                 case Loading(before, scratch) => |scratch| >= |m.words| && m.version != before
                 case _ => false;
      && (r'.phase.Lost? <==> bad && r.attempts == 2)
      && (r'.attempts == r.attempts + 1 <==> bad && r.attempts == 1)
      && (bad && r.attempts == 1 ==> r'.phase.Opening?)
  {
  }

  // ----- whole runs: one writer and any number of readers

  datatype System<W> = System(memory: Memory<W>, readers: seq<Reader<W>>)

  datatype Action<W> = DoBegin(batch: seq<W>) | DoStore | DoEnd | DoStart(who: nat) | DoLoad(who: nat)

  ghost predicate SystemStep<W>(s: System<W>, s': System<W>, a: Action<W>) {
    match a
    case DoBegin(batch) => CanBegin(s.memory, batch) && s' == s.(memory := Begin(s.memory, batch))
    case DoStore => CanStore(s.memory) && s' == s.(memory := Store(s.memory))
    case DoEnd => CanEnd(s.memory) && s' == s.(memory := End(s.memory))
    case DoStart(k) =>
      k < |s.readers| && !Reading(s.readers[k]) && s' == s.(readers := s.readers[k := Start(s.readers[k])])
    case DoLoad(k) =>
      k < |s.readers| && Reading(s.readers[k]) &&
      s' == s.(readers := s.readers[k := Load(s.memory, s.readers[k])])
  }

  ghost predicate SystemInitial<W>(s: System<W>) {
    && s.memory.version == 0 && s.memory.writer.Resting? && s.memory.begun == []
    && (forall k | 0 <= k < |s.readers| :: s.readers[k] == Reader(Off, 0, 0))
  }

  ghost predicate SystemNext<W(!new)>(s: System<W>, s': System<W>) {
    exists a :: SystemStep(s, s', a)
  }

  ghost predicate SystemRun<W(!new)>(run: seq<System<W>>) {
    && run != [] && SystemInitial(run[0])
    && (forall i | 0 <= i < |run| - 1 :: SystemNext(run[i], run[i + 1]))
  }

  ghost predicate SystemOk<W>(s: System<W>) {
    MemoryOk(s.memory) && forall k | 0 <= k < |s.readers| :: ReaderOk(s.memory, s.readers[k])
  }

  lemma StepKeepsSystem<W>(s: System<W>, s': System<W>, a: Action<W>)
    requires SystemOk(s) && SystemStep(s, s', a)
    ensures SystemOk(s') && |s'.readers| == |s.readers|
    ensures forall k | 0 <= k < |s.readers| :: s.readers[k].newest <= s'.readers[k].newest
  {
    var batch := if a.DoBegin? then a.batch else [];
    WriterKeepsMemory(s.memory, batch);
    forall k | 0 <= k < |s.readers|
      ensures ReaderOk(s'.memory, s'.readers[k]) && s.readers[k].newest <= s'.readers[k].newest
    {
      WriterKeepsReader(s.memory, batch, s.readers[k]);
      LoadKeepsReader(s.memory, s.readers[k]);
    }
  }

  lemma {:induction false} RunIsOk<W(!new)>(run: seq<System<W>>, i: nat)
    requires SystemRun(run) && i < |run|
    ensures SystemOk(run[i]) && |run[i].readers| == |run[0].readers|
  {
    if i > 0 {
      RunIsOk(run, i - 1);
      assert SystemNext(run[i - 1], run[i]);
      var a :| SystemStep(run[i - 1], run[i], a);
      StepKeepsSystem(run[i - 1], run[i], a);
    }
  }

  lemma WinningStep<W>(s: System<W>, s': System<W>, a: Action<W>, k: nat)
    requires SystemOk(s) && SystemStep(s, s', a) && k < |s.readers| == |s'.readers|
    requires Reading(s.readers[k]) && s'.readers[k].phase.Won?
    ensures s'.memory.writer.Resting? && s'.memory.begun != []
    ensures s'.readers[k].phase.scratch == s'.memory.begun[|s'.memory.begun| - 1]
    ensures s'.readers[k].newest == |s'.memory.begun|
  {
    assert a.DoLoad? && a.who == k;
    assert s'.memory == s.memory;
    WinningLoadIsNewest(s.memory, s.readers[k]);
  }

  /** In every run, the moment a read succeeds it holds one whole publication, the newest one
      begun, and that one is complete. */
  lemma SuccessfulReadsAreWholeAndCurrent<W(!new)>(run: seq<System<W>>, i: nat, k: nat)
    requires SystemRun(run) && i + 1 < |run| && k < |run[i].readers| && k < |run[i + 1].readers|
    requires Reading(run[i].readers[k]) && run[i + 1].readers[k].phase.Won?
    ensures var m := run[i + 1].memory;
      m.writer.Resting? && m.begun != [] && run[i + 1].readers[k].phase.scratch == m.begun[|m.begun| - 1]
    ensures run[i + 1].readers[k].newest == |run[i + 1].memory.begun|
  {
    RunIsOk(run, i);
    RunIsOk(run, i + 1);
    var s, s' := run[i], run[i + 1];
    assert SystemNext(s, s');
    var a :| SystemStep(s, s', a);
    WinningStep(s, s', a, k);
  }

  /** One reader's successful reads never go back to an earlier publication. */
  lemma {:induction false} ReadsNeverGoBack<W(!new)>(run: seq<System<W>>, i: nat, j: nat, k: nat)
    requires SystemRun(run) && i <= j < |run| && k < |run[0].readers|
    ensures k < |run[i].readers| && k < |run[j].readers|
    ensures run[i].readers[k].newest <= run[j].readers[k].newest
    decreases j
  {
    RunIsOk(run, i);
    if i < j {
      ReadsNeverGoBack(run, i, j - 1, k);
      RunIsOk(run, j - 1);
      assert SystemNext(run[j - 1], run[j]);
      NextNeverGoesBack(run[j - 1], run[j], k);
    }
  }

  lemma NextNeverGoesBack<W(!new)>(s: System<W>, s': System<W>, k: nat)
    requires SystemOk(s) && SystemNext(s, s') && k < |s.readers|
    ensures |s'.readers| == |s.readers| && s.readers[k].newest <= s'.readers[k].newest
  {
    var a :| SystemStep(s, s', a);
    StepKeepsSystem(s, s', a);
  }

  // ----- the class itself, with other threads running between any two of its accesses

  class AtomicSnapshot<W(==)> {
    var memory: Memory<W>

    constructor (initial: seq<W>)
      requires initial != []
      ensures memory == Memory(0, initial, Resting, []) && MemoryOk(memory)
    {
      memory := Memory(0, initial, Resting, []);
    }

    /** One publication. Readers run in between, but they store nothing. */
    method Publish(values: seq<W>)
      requires MemoryOk(memory) && memory.writer.Resting? && |values| == |memory.words|
      modifies this
      ensures MemoryOk(memory) && memory.writer.Resting?
      ensures memory.words == values && memory.begun == old(memory.begun) + [values]
      ensures memory.version == old(memory.version) + 2
    {
      WriterKeepsMemory(memory, values);
      memory := Begin(memory, values);
      var w := 0;
      while w < |memory.words|
        invariant MemoryOk(memory) && memory.writer == Storing(w) && |values| == |memory.words|
        invariant memory.begun == old(memory.begun) + [values]
        invariant memory.version == old(memory.version) + 1
      {
        WriterKeepsMemory(memory, values);
        memory := Store(memory);
        w := w + 1;
      }
      WriterKeepsMemory(memory, values);
      memory := End(memory);
    }

    /** Any number of steps of the writer thread. */
    method Others()
      requires MemoryOk(memory)
      modifies this
      ensures MemoryOk(memory) && |memory.words| == |old(memory.words)|
      ensures old(memory.begun) <= memory.begun && old(memory.version) <= memory.version
      ensures old(memory.version) == memory.version && memory.version % 2 == 0 ==> memory == old(memory)
    {
      var steps: nat := *;
      while steps > 0
        invariant MemoryOk(memory) && |memory.words| == |old(memory.words)|
        invariant old(memory.begun) <= memory.begun && old(memory.version) <= memory.version
        invariant old(memory.version) == memory.version && memory.version % 2 == 0 ==> memory == old(memory)
      {
        var batch: seq<W> := *;
        WriterKeepsMemory(memory, batch);
        if CanBegin(memory, batch) {
          memory := Begin(memory, batch);
        } else if CanStore(memory) {
          memory := Store(memory);
        } else if CanEnd(memory) {
          memory := End(memory);
        }
        steps := steps - 1;
      }
    }

    /** One attempt: version, words, version again, with the writer running between any two loads. It
        succeeds exactly if the opening version is even and not zero and the closing one the same; at
        that closing load the copy is the newest publication begun. */
    method Attempt(scratch: array<W>) returns (ok: bool, opening: nat, closing: nat)
      requires MemoryOk(memory) && scratch.Length == |memory.words|
      modifies this, scratch
      ensures MemoryOk(memory) && old(memory.begun) <= memory.begun && |memory.words| == scratch.Length
      ensures old(memory.version) <= opening <= closing == memory.version
      ensures ok <==> opening > 0 && opening % 2 == 0 && closing == opening
      ensures ok ==> memory.writer.Resting? && memory.begun != [] && scratch[..] == memory.begun[|memory.begun| - 1]
    {
      Others();
      opening := memory.version;
      if opening == 0 || opening % 2 == 1 {
        return false, opening, opening;
      }
      ghost var atOpen := memory;
      for w := 0 to scratch.Length
        invariant scratch.Length == |memory.words|
        invariant MemoryOk(memory) && atOpen.begun <= memory.begun && opening <= memory.version
        invariant memory.version == opening ==> memory == atOpen && scratch[..w] == atOpen.words[..w]
      {
        Others();
        scratch[w] := memory.words[w];
      }
      Others();
      closing := memory.version;
      return closing == opening, opening, closing;
    }

    /** The two-attempt read. A true result is one whole publication, the newest one begun at its
        second version load, so not older than the newest one complete when the call began. A false
        result means that both attempts opened with nothing published or a store under way, or met
        another version when they closed; so if no publication begins or ends during the call and one
        is there, the first attempt succeeds. */
    method TryRead(scratch: array<W>) returns (ok: bool, attempts: nat, ghost versions: seq<(nat, nat)>)
      requires MemoryOk(memory) && scratch.Length == |memory.words|
      modifies this, scratch
      ensures MemoryOk(memory) && old(memory.begun) <= memory.begun
      ensures 1 <= attempts <= 2 && (!ok ==> attempts == 2) && |versions| == attempts
      ensures forall i | 0 <= i < attempts :: old(memory.version) <= versions[i].0 <= versions[i].1 <= memory.version
      ensures forall i | 0 <= i < attempts :: (ok && i == attempts - 1) <==>
        versions[i].0 > 0 && versions[i].0 % 2 == 0 && versions[i].1 == versions[i].0
      ensures memory.version == old(memory.version) > 0 && memory.version % 2 == 0 ==> ok && attempts == 1
      ensures ok ==> memory.writer.Resting? && old(Completed(memory)) <= |memory.begun|
      ensures ok ==> memory.begun != [] && scratch[..] == memory.begun[|memory.begun| - 1]
    {
      ok, attempts, versions := false, 0, [];
      while attempts < 2 && !ok
        invariant attempts <= 2 && (attempts == 0 ==> !ok) && |versions| == attempts
        invariant MemoryOk(memory) && |memory.words| == scratch.Length
        invariant old(memory.begun) <= memory.begun && old(memory.version) <= memory.version
        invariant forall i | 0 <= i < attempts ::
          old(memory.version) <= versions[i].0 <= versions[i].1 <= memory.version
        invariant forall i | 0 <= i < attempts :: (ok && i == attempts - 1) <==>
          versions[i].0 > 0 && versions[i].0 % 2 == 0 && versions[i].1 == versions[i].0
        invariant ok ==> memory.writer.Resting? && memory.begun != [] && scratch[..] == memory.begun[|memory.begun| - 1]
      {
        attempts := attempts + 1;
        var opening, closing;
        ok, opening, closing := Attempt(scratch);
        versions := versions + [(opening, closing)];
      }
      assert old(memory.version) <= versions[0].0 <= versions[0].1 <= memory.version;
    }
  }

  // ----- one payload as words

  /** A trivially copyable payload cut into eight-byte words, the last one filled up with zeros. */
  function Pack(bytes: seq<bv8>): (words: seq<seq<bv8>>)
    ensures |words| == (|bytes| + 7) / 8
    ensures forall w | 0 <= w < |words| :: |words[w]| == 8
  {
    if bytes == [] then []
    else if |bytes| < 8 then [bytes + seq(8 - |bytes|, _ => 0)]
    else [bytes[..8]] + Pack(bytes[8..])
  }

  /** Copies at most eight bytes of each word back, `size` in all. */
  function Unpack(words: seq<seq<bv8>>, size: nat): seq<bv8>
    requires |words| == (size + 7) / 8
    requires forall w | 0 <= w < |words| :: |words[w]| == 8
  {
    if size == 0 then []
    else if size < 8 then words[0][..size]
    else words[0] + Unpack(words[1..], size - 8)
  }

  lemma {:induction false} UnpackPack(bytes: seq<bv8>)
    ensures Unpack(Pack(bytes), |bytes|) == bytes
  {
    if |bytes| >= 8 {
      UnpackPack(bytes[8..]);
      assert Pack(bytes)[1..] == Pack(bytes[8..]);
      assert bytes == bytes[..8] + bytes[8..];
    }
  }
}
