/**
 What reaches the bus in pair mode, over every run of CommandPath: each control frame is zero-gain
 or one whole batch that PairCommit accepted, and the generations on the wire never decrease.
 */
module CommandDelivery {
  import opened PairCommits
  import opened Seqlock
  import opened WriteSchedules
  import opened Packets
  import opened CommandPath

  // ----- what the control thread has let through

  predicate Carrying(pc: ControlPc) {
    pc.AskArmed? || pc.AskRunning? || pc.AskStopAll? || pc.PublishBegin?
  }

  /** The batch was built from the values accepted with it. */
  ghost predicate BuiltFrom(c: Config, a: Admission) {
    && |a.adopted.values| == c.axes * FIELDS
    && a.batch == BatchOf(a.adopted.values, c.axes, a.adopted.generation, a.adopted.now)
  }

  function Adoptions(log: seq<Admission>): seq<Adopted> {
    seq(|log|, i requires 0 <= i < |log| => log[i].adopted)
  }

  /** The log of accepted batches is one that PairCommit can leave behind. */
  ghost predicate Admitted(c: Config, commit: Commit, log: seq<Admission>) {
    && PairCommits.LogOk(c.bounds, commit.deadline, Adoptions(log)) && commit.last == |log|
    && (forall i | 0 <= i < |log| :: BuiltFrom(c, log[i]) && (log[i].adopted.latched ==> commit.latched))
  }

  /** Where writePair stands between its checks. */
  ghost predicate RowOk(c: Config, ctl: Control, log: seq<Admission>) {
    var row := ctl.row;
    && |row.values| == c.axes * FIELDS
    && (ctl.pc.Check2? || ctl.pc.Stamp? ==> Admissible(c.bounds, ctl.commit, row.generation, row.values, row.startNs))
    && (ctl.pc.Check3? || ctl.pc.Check4? ==>
          IsGeneration(row.generation) &&
          row.outgoing == BatchOf(row.values, c.axes, Generation(row.generation), row.stampNs))
    && (ctl.pc.Check4? ==> Admissible(c.bounds, ctl.commit, row.generation, row.values, row.stampNs))
    && (Carrying(ctl.pc) ==> log != [] && row.outgoing == log[|log| - 1].batch)
  }

  /** A published batch is the accepted one of its number. */
  ghost predicate FromLog(c: Config, b: Batch, log: seq<Admission>) {
    |b| == c.axes > 0 && 1 <= b[0].sequence <= |log| && b == log[b[0].sequence - 1].batch
  }

  ghost predicate PublishedOk(c: Config, pc: ControlPc, log: seq<Admission>, published: seq<Batch>) {
    && (forall k | 0 <= k < |published| :: FromLog(c, published[k], log))
    && (Carrying(pc) ==> LastSequence(published) < |log|)
  }

  ghost predicate Admissions(c: Config, ctl: Control, log: seq<Admission>, published: seq<Batch>) {
    Admitted(c, ctl.commit, log) && RowOk(c, ctl, log) && PublishedOk(c, ctl.pc, log, published)
  }

  lemma AdmissionExtendsLog(c: Config, commit: Commit, log: seq<Admission>, a: Admission)
    requires Admitted(c, commit, log) && BuiltFrom(c, a) && AdoptedOk(c.bounds, a.adopted, |log|)
    requires a.adopted.latched == commit.latched && (log == [] ==> a.adopted.now < commit.deadline)
    ensures Admitted(c, commit.(last := |log| + 1), log + [a])
  {
    assert Adoptions(log + [a]) == Adoptions(log) + [a.adopted];
  }

  lemma FromLongerLog(c: Config, published: seq<Batch>, log: seq<Admission>, a: Admission)
    requires forall k | 0 <= k < |published| :: FromLog(c, published[k], log)
    ensures forall k | 0 <= k < |published| :: FromLog(c, published[k], log + [a])
    ensures LastSequence(published) <= |log|
  {
  }

  lemma AdmitKeepsAdmissions(c: Config, s: State)
    requires ValidConfig(c) && Admissions(c, s.ctl, s.accepted, s.published) && s.ctl.pc.Check4?
    ensures Admissions(c, Admit(s).ctl, Admit(s).accepted, s.published)
  {
    var s' := Admit(s);
    var a := s'.accepted[|s.accepted|];
    AdmissionExtendsLog(c, s.ctl.commit, s.accepted, a);
    FromLongerLog(c, s.published, s.accepted, a);
  }

  lemma CheckKeepsAdmissions(c: Config, s: State, ch: Choice)
    requires ValidConfig(c) && Admissions(c, s.ctl, s.accepted, s.published) && Checking(s.ctl.pc)
    ensures var s' := CheckStep(c, s, ch); Admissions(c, s'.ctl, s'.accepted, s'.published)
  {
    var row := s.ctl.row;
    match s.ctl.pc
    case Check1 => InspectDecides(c.bounds, s.ctl.commit, row.generation, row.values, row.startNs);
    case Check3 => InspectDecides(c.bounds, s.ctl.commit, row.generation, row.values, row.stampNs);
    case Check4 =>
      if !s.safety.feedbackStopped {
        AdmitKeepsAdmissions(c, s);
      }
    case _ =>
  }

  lemma PublishedFromLog(c: Config, log: seq<Admission>, published: seq<Batch>, outgoing: Batch)
    requires c.axes > 0 && log != [] && BuiltFrom(c, log[|log| - 1]) && log[|log| - 1].adopted.generation == |log|
    requires outgoing == log[|log| - 1].batch && PublishedOk(c, PublishBegin, log, published)
    ensures PublishedOk(c, PublishStore, log, published + [outgoing])
  {
    assert outgoing[0].sequence == |log|;
    assert FromLog(c, outgoing, log);
  }

  lemma BeginKeepsAdmissions(c: Config, s: State, ch: Choice)
    requires ValidConfig(c) && Admissions(c, s.ctl, s.accepted, s.published) && s.ctl.pc.PublishBegin?
    ensures var s' := PublishStep(c, s, ch); Admissions(c, s'.ctl, s'.accepted, s'.published)
  {
    assert Adoptions(s.accepted)[|s.accepted| - 1].generation == |s.accepted|;
    PublishedFromLog(c, s.accepted, s.published, s.ctl.row.outgoing);
  }

  /** A step outside the checks that at most raises the latch and drops the batch it carried. */
  lemma OtherStepKeepsAdmissions(c: Config, ctl: Control, ctl': Control, log: seq<Admission>, published: seq<Batch>)
    requires Admissions(c, ctl, log, published) && OtherStep(ctl, ctl')
    ensures Admissions(c, ctl', log, published)
  {
  }

  predicate OtherStep(ctl: Control, ctl': Control) {
    && ctl'.row == ctl.row && (ctl'.commit == ctl.commit || ctl'.commit == ctl.commit.(latched := true))
    && !Checking(ctl'.pc) && (Carrying(ctl'.pc) ==> Carrying(ctl.pc))
  }

  lemma PublishIsOther(c: Config, s: State, ch: Choice)
    requires c.timing.group && !Checking(s.ctl.pc) && !Judging(s.ctl.pc) && !s.ctl.pc.Idle? && !s.ctl.pc.PublishBegin?
    ensures OtherStep(s.ctl, PublishStep(c, s, ch).ctl)
  {
  }

  lemma JudgeIsOther(s: State, ch: Choice)
    requires Judging(s.ctl.pc)
    ensures OtherStep(s.ctl, JudgeStep(s, ch).ctl)
  {
  }

  lemma IdleKeepsAdmissions(c: Config, s: State, ch: Choice)
    requires c.timing.group && ValidChoice(c, s, ch) && s.ctl.pc.Idle?
    requires Admissions(c, s.ctl, s.accepted, s.published)
    ensures var s' := BeginOperation(c, s, ch); Admissions(c, s'.ctl, s'.accepted, s'.published)
  {
  }

  lemma ControlKeepsAdmissions(c: Config, s: State, ch: Choice)
    requires ValidConfig(c) && c.timing.group && ValidChoice(c, s, ch) && |s.ctl.row.values| == c.axes * FIELDS
    requires Admissions(c, s.ctl, s.accepted, s.published)
    ensures var s' := ControlStep(c, s, ch); Admissions(c, s'.ctl, s'.accepted, s'.published)
  {
    if Checking(s.ctl.pc) {
      CheckKeepsAdmissions(c, s, ch);
    } else if Judging(s.ctl.pc) {
      JudgeIsOther(s, ch);
      OtherStepKeepsAdmissions(c, s.ctl, JudgeStep(s, ch).ctl, s.accepted, s.published);
    } else if s.ctl.pc.Idle? {
      IdleKeepsAdmissions(c, s, ch);
    } else if s.ctl.pc.PublishBegin? {
      BeginKeepsAdmissions(c, s, ch);
    } else {
      PublishIsOther(c, s, ch);
      OtherStepKeepsAdmissions(c, s.ctl, PublishStep(c, s, ch).ctl, s.accepted, s.published);
    }
  }

  // ----- what the snapshot holds

  /** The snapshot memory against the batches handed to it, numbered upwards. */
  ghost predicate Transport(c: Config, m: Memory<Word>, pc: ControlPc, outgoing: Batch, published: seq<Batch>) {
    && c.axes > 0 && MemoryOk(m) && |m.words| == WORDS * c.axes
    && |published| == |m.begun|
    && (forall k | 0 <= k < |published| ::
          |published[k]| == c.axes && m.begun[k] == Words(published[k]) && published[k][0].sequence > 0)
    && (forall j, k | 0 <= j < k < |published| :: published[j][0].sequence < published[k][0].sequence)
    && (pc.PublishStore? <==> m.writer.Storing?)
    && (Carrying(pc) ==> |outgoing| == c.axes && LastSequence(published) < outgoing[0].sequence)
  }

  lemma BeginKeepsTransport(c: Config, m: Memory<Word>, outgoing: Batch, published: seq<Batch>)
    requires Transport(c, m, PublishBegin, outgoing, published)
    ensures Transport(c, Begin(m, Words(outgoing)), PublishStore, outgoing, published + [outgoing])
  {
    ParseWords(outgoing);
    WriterKeepsMemory(m, Words(outgoing));
    assert published != [] ==> LastSequence(published) == published[|published| - 1][0].sequence;
  }

  lemma StoreKeepsTransport(c: Config, m: Memory<Word>, outgoing: Batch, published: seq<Batch>)
    requires Transport(c, m, PublishStore, outgoing, published)
    ensures CanStore(m) ==> Transport(c, Store(m), PublishStore, outgoing, published)
    ensures CanEnd(m) ==> Transport(c, End(m), Notify, outgoing, published)
  {
    WriterKeepsMemory(m, []);
  }

  /** Steps that leave the memory alone only matter where they hand a batch over. */
  lemma HandOverKeepsTransport(c: Config, m: Memory<Word>, pc: ControlPc, outgoing: Batch, published: seq<Batch>,
                               pc': ControlPc, outgoing': Batch)
    requires Transport(c, m, pc, outgoing, published) && !pc.PublishStore? && !pc'.PublishStore?
    requires Carrying(pc') ==> |outgoing'| == c.axes && LastSequence(published) < outgoing'[0].sequence
    ensures Transport(c, m, pc', outgoing', published)
  {
  }

  lemma AdmittedIsNewer(c: Config, s: State)
    requires ValidConfig(c) && Admissions(c, s.ctl, s.accepted, s.published) && s.ctl.pc.Check4?
    ensures |s.ctl.row.outgoing| == c.axes && LastSequence(s.published) < s.ctl.row.outgoing[0].sequence
  {
    assert s.published != [] ==> FromLog(c, s.published[|s.published| - 1], s.accepted);
  }

  /** The only places a batch is taken up for publication. */
  lemma HandOvers(c: Config, s: State, ch: Choice)
    requires |s.ctl.row.values| == c.axes * FIELDS && !s.ctl.pc.PublishBegin? && !s.ctl.pc.PublishStore?
    ensures var s' := ControlStep(c, s, ch);
      && s'.memory == s.memory && s'.published == s.published && !s'.ctl.pc.PublishStore?
      && (Carrying(s'.ctl.pc) ==>
            || (s.ctl.pc.Idle? && !c.timing.group && s'.ctl.row.outgoing == ch.batch)
            || (s.ctl.pc.Check4? && s'.ctl.row == s.ctl.row)
            || (Carrying(s.ctl.pc) && s'.ctl.row == s.ctl.row))
  {
  }

  lemma StoringKeepsTransport(c: Config, s: State, ch: Choice)
    requires ValidConfig(c) && Transport(c, s.memory, s.ctl.pc, s.ctl.row.outgoing, s.published)
    requires s.ctl.pc.PublishBegin? || s.ctl.pc.PublishStore?
    ensures var s' := PublishStep(c, s, ch); Transport(c, s'.memory, s'.ctl.pc, s'.ctl.row.outgoing, s'.published)
  {
    if s.ctl.pc.PublishBegin? {
      BeginKeepsTransport(c, s.memory, s.ctl.row.outgoing, s.published);
    } else {
      StoreKeepsTransport(c, s.memory, s.ctl.row.outgoing, s.published);
    }
  }

  lemma ControlKeepsTransport(c: Config, s: State, ch: Choice)
    requires ValidConfig(c) && ValidChoice(c, s, ch) && |s.ctl.row.values| == c.axes * FIELDS
    requires Transport(c, s.memory, s.ctl.pc, s.ctl.row.outgoing, s.published)
    requires s.ctl.pc.Check4? ==>
      |s.ctl.row.outgoing| == c.axes && LastSequence(s.published) < s.ctl.row.outgoing[0].sequence
    ensures var s' := ControlStep(c, s, ch); Transport(c, s'.memory, s'.ctl.pc, s'.ctl.row.outgoing, s'.published)
  {
    if s.ctl.pc.PublishBegin? || s.ctl.pc.PublishStore? {
      StoringKeepsTransport(c, s, ch);
    } else {
      HandOvers(c, s, ch);
      var ctl' := ControlStep(c, s, ch).ctl;
      HandOverKeepsTransport(c, s.memory, s.ctl.pc, s.ctl.row.outgoing, s.published, ctl'.pc, ctl'.row.outgoing);
    }
  }

  // ----- what the send thread holds

  /** `cached` is the publication the cache came from. Whatever version was noted for it is not
      newer than that publication, even if it was odd or already outdated when it was loaded. */
  ghost predicate Cache(c: Config, m: Memory<Word>, published: seq<Batch>, box: Box, number: nat, stamp: int,
                        reading: bool) {
    && ReaderOk(m, box.reader)
    && box.cached == box.reader.newest <= |published|
    && box.version <= m.version
    && (reading ==> Reading(box.reader))
    && (reading && box.reader.phase.Loading? ==> box.version <= box.reader.phase.before)
    && box.observed <= 2 * box.cached <= m.version
    && (number != 0 <==> box.cached > 0)
    && (box.cached > 0 ==>
          && box.cache == published[box.cached - 1] && |box.cache| == c.axes > 0
          && number == box.cache[0].sequence && stamp == box.cache[0].publishedNs)
  }

  ghost predicate CacheOk(c: Config, s: State) {
    Cache(c, s.memory, s.published, s.box, s.local.schedule.sequence, s.local.schedule.publishedNs,
          s.pc == InLoop(TxRead))
  }

  ghost predicate TransportOk(c: Config, s: State) {
    Transport(c, s.memory, s.ctl.pc, s.ctl.row.outgoing, s.published)
  }

  lemma BeginKeepsCache(c: Config, m: Memory<Word>, published: seq<Batch>, outgoing: Batch, box: Box, number: nat,
                        stamp: int, reading: bool)
    requires MemoryOk(m) && CanBegin(m, Words(outgoing)) && |published| == |m.begun|
    requires Cache(c, m, published, box, number, stamp, reading)
    ensures Cache(c, Begin(m, Words(outgoing)), published + [outgoing], box, number, stamp, reading)
  {
    WriterKeepsReader(m, Words(outgoing), box.reader);
  }

  lemma StoreKeepsCache(c: Config, m: Memory<Word>, published: seq<Batch>, box: Box, number: nat, stamp: int,
                        reading: bool)
    requires MemoryOk(m) && Cache(c, m, published, box, number, stamp, reading)
    ensures CanStore(m) ==> Cache(c, Store(m), published, box, number, stamp, reading)
    ensures CanEnd(m) ==> Cache(c, End(m), published, box, number, stamp, reading)
  {
    WriterKeepsReader(m, [], box.reader);
  }

  lemma PublishKeepsCache(c: Config, s: State, ch: Choice)
    requires TransportOk(c, s) && CacheOk(c, s) && (s.ctl.pc.PublishBegin? || s.ctl.pc.PublishStore?)
    ensures CacheOk(c, PublishStep(c, s, ch))
  {
    var schedule, reading := s.local.schedule, s.pc == InLoop(TxRead);
    if s.ctl.pc.PublishBegin? {
      BeginKeepsCache(c, s.memory, s.published, s.ctl.row.outgoing, s.box, schedule.sequence, schedule.publishedNs,
                      reading);
    } else {
      StoreKeepsCache(c, s.memory, s.published, s.box, schedule.sequence, schedule.publishedNs, reading);
    }
  }

  lemma ControlKeepsCache(c: Config, s: State, ch: Choice)
    requires TransportOk(c, s) && CacheOk(c, s) && |s.ctl.row.values| == c.axes * FIELDS
    ensures CacheOk(c, ControlStep(c, s, ch))
  {
    if s.ctl.pc.PublishBegin? || s.ctl.pc.PublishStore? {
      PublishKeepsCache(c, s, ch);
    } else {
      HandOvers(c, s, ch);
      ControlLeavesTx(c, s, ch);
    }
  }

  lemma ControlLeavesTx(c: Config, s: State, ch: Choice)
    requires |s.ctl.row.values| == c.axes * FIELDS
    ensures var s' := ControlStep(c, s, ch);
      s' == s.(clock := s'.clock, memory := s'.memory, flags := s'.flags, safety := s'.safety,
               ctl := s'.ctl, accepted := s'.accepted, published := s'.published)
    ensures s.accepted <= ControlStep(c, s, ch).accepted
  {
  }

  lemma LostReadKeepsCache(c: Config, s: State)
    requires TransportOk(c, s) && CacheOk(c, s) && s.pc == InLoop(TxRead)
    requires !Load(s.memory, s.box.reader).phase.Won?
    ensures CacheOk(c, ReadStep(c, s))
  {
    LoadKeepsReader(s.memory, s.box.reader);
  }

  lemma WonReadHoldsNewest(c: Config, s: State)
    requires TransportOk(c, s) && CacheOk(c, s) && s.pc == InLoop(TxRead)
    requires Load(s.memory, s.box.reader).phase.Won?
    ensures s.published != [] && s.memory.writer.Resting? && s.published[|s.published| - 1] != []
    ensures Parse(Load(s.memory, s.box.reader).phase.scratch) == s.published[|s.published| - 1]
    ensures Load(s.memory, s.box.reader).newest == |s.published|
    ensures s.local.schedule.sequence <= s.published[|s.published| - 1][0].sequence
    ensures s.local.schedule.sequence == s.published[|s.published| - 1][0].sequence ==> s.box.cached == |s.published|
  {
    WinningLoadIsNewest(s.memory, s.box.reader);
    ParseWords(s.published[|s.published| - 1]);
  }

  /** A cache filled from the newest publication, whatever version was noted before the read. */
  lemma NewestIsCached(c: Config, m: Memory<Word>, published: seq<Batch>, box: Box)
    requires published != [] && |published[|published| - 1]| == c.axes > 0
    requires published[|published| - 1][0].sequence > 0
    requires ReaderOk(m, box.reader) && box.reader.newest == |published| && 2 * |published| <= m.version
    requires box.observed <= box.version <= 2 * |published|
    requires box.cached == |published| && box.cache == published[|published| - 1]
    ensures Cache(c, m, published, box, box.cache[0].sequence, box.cache[0].publishedNs, false)
  {
  }

  /** What a won read makes of the send thread's state. */
  predicate Takes(s: State, s': State, reader: Reader<Word>, newest: Batch)
    requires newest != []
  {
    && s'.memory == s.memory && s'.published == s.published && s'.pc == InLoop(TxArmed)
    && s'.local.schedule.sequence == newest[0].sequence
    && (if newest[0].sequence == s.local.schedule.sequence
        then s'.box == s.box.(reader := reader, observed := s.box.version) && s'.local.schedule == s.local.schedule
        else s'.box == Box(newest, s.box.version, s.box.version, reader, reader.newest) &&
             s'.local.schedule.publishedNs == newest[0].publishedNs)
  }

  lemma WonReadTakes(c: Config, s: State, newest: Batch)
    requires Load(s.memory, s.box.reader).phase.Won? && newest != []
    requires Parse(Load(s.memory, s.box.reader).phase.scratch) == newest
    ensures Takes(s, ReadStep(c, s), Load(s.memory, s.box.reader), newest)
  {
  }

  lemma TakenIsCached(c: Config, s: State, s': State, reader: Reader<Word>)
    requires TransportOk(c, s) && CacheOk(c, s) && s.published != [] && s.memory.writer.Resting?
    requires ReaderOk(s.memory, reader) && reader.newest == |s.published|
    requires s.published[|s.published| - 1] != [] && Takes(s, s', reader, s.published[|s.published| - 1])
    requires s.local.schedule.sequence == s.published[|s.published| - 1][0].sequence ==> s.box.cached == |s.published|
    ensures CacheOk(c, s')
  {
    var newest := s.published[|s.published| - 1];
    var box := Box(newest, s.box.version, s.box.version, reader, |s.published|);
    NewestIsCached(c, s.memory, s.published, box);
    assert s'.box == box;
  }

  /** A won read hands over exactly the newest publication. */
  lemma WonReadKeepsCache(c: Config, s: State)
    requires TransportOk(c, s) && CacheOk(c, s) && s.pc == InLoop(TxRead)
    requires Load(s.memory, s.box.reader).phase.Won?
    ensures CacheOk(c, ReadStep(c, s))
  {
    WonReadHoldsNewest(c, s);
    LoadKeepsReader(s.memory, s.box.reader);
    WonReadTakes(c, s, s.published[|s.published| - 1]);
    TakenIsCached(c, s, ReadStep(c, s), Load(s.memory, s.box.reader));
  }

  lemma TxLeavesBox(c: Config, s: State, ch: Choice)
    requires s.pc != InLoop(TxRead) && s.pc != InLoop(TxVersion)
    ensures var s' := TxStep(c, s, ch);
      && s'.box == s.box && s'.memory == s.memory && s'.published == s.published && s'.pc != InLoop(TxRead)
      && s'.local.schedule.sequence == s.local.schedule.sequence
      && s'.local.schedule.publishedNs == s.local.schedule.publishedNs
  {
  }

  lemma VersionKeepsCache(c: Config, s: State, ch: Choice)
    requires CacheOk(c, s) && s.pc == InLoop(TxVersion)
    ensures CacheOk(c, LoopStep(c, s, ch))
  {
  }

  lemma TxKeepsCache(c: Config, s: State, ch: Choice)
    requires TransportOk(c, s) && CacheOk(c, s)
    ensures CacheOk(c, TxStep(c, s, ch))
  {
    if s.pc == InLoop(TxRead) {
      if Load(s.memory, s.box.reader).phase.Won? {
        WonReadKeepsCache(c, s);
      } else {
        LostReadKeepsCache(c, s);
      }
    } else if s.pc == InLoop(TxVersion) {
      VersionKeepsCache(c, s, ch);
    } else {
      TxLeavesBox(c, s, ch);
    }
  }

  /** The send-boundary check: if the version still equals the noted one before the first frame,
      the cached batch is the newest publication begun, and it is complete. */
  lemma BoundaryCheckMeansNewest(c: Config, s: State)
    requires TransportOk(c, s) && CacheOk(c, s)
    requires Fresh(s) && s.memory.version == s.box.observed
    ensures s.box.cached == |s.published| > 0 && s.memory.writer.Resting?
    ensures s.box.cache == s.published[|s.published| - 1]
    ensures s.memory.words == Words(s.box.cache)
  {
  }

  // ----- what is on the wire

  ghost predicate AllZeroGain(commands: seq<Command>) {
    forall i | 0 <= i < |commands| :: ZeroGain(commands[i])
  }

  ghost predicate FrameOk(log: seq<Admission>, f: Frame) {
    match f.kind
    case Normal(g) => 1 <= g <= |log| && f.commands == Commands(log[g - 1].batch)
    case _ => AllZeroGain(f.commands)
  }

  ghost predicate WireOk(log: seq<Admission>, number: nat, wire: seq<Frame>) {
    && (forall i | 0 <= i < |wire| :: FrameOk(log, wire[i]))
    && (forall i | 0 <= i < |wire| :: wire[i].kind.Normal? ==> wire[i].kind.generation <= number)
    && (forall i, j | 0 <= i < j < |wire| :: wire[i].kind.Normal? && wire[j].kind.Normal? ==>
          wire[i].kind.generation <= wire[j].kind.generation)
  }

  ghost predicate JobOk(s: State) {
    s.pc.InFrames? ==>
      && !ZeroStop(s.view.stop)
      && (if s.local.schedule.Active() then s.job.commands == Commands(s.box.cache) else AllZeroGain(s.job.commands))
  }

  ghost predicate Wire(s: State) {
    JobOk(s) && WireOk(s.accepted, s.local.schedule.sequence, s.wire)
  }

  lemma LongerLogKeepsWire(log: seq<Admission>, more: seq<Admission>, number: nat, wire: seq<Frame>)
    requires WireOk(log, number, wire)
    ensures WireOk(log + more, number, wire)
  {
    forall i | 0 <= i < |wire|
      ensures FrameOk(log + more, wire[i])
    {
      assert FrameOk(log, wire[i]);
    }
  }

  lemma ControlKeepsWire(c: Config, s: State, ch: Choice)
    requires |s.ctl.row.values| == c.axes * FIELDS && Wire(s)
    ensures Wire(ControlStep(c, s, ch))
  {
    var s' := ControlStep(c, s, ch);
    ControlLeavesTx(c, s, ch);
    assert s'.accepted == s.accepted + s'.accepted[|s.accepted|..];
    LongerLogKeepsWire(s.accepted, s'.accepted[|s.accepted|..], s.local.schedule.sequence, s.wire);
  }

  lemma OneMoreFrame(log: seq<Admission>, number: nat, wire: seq<Frame>, f: Frame)
    requires WireOk(log, number, wire) && FrameOk(log, f)
    requires f.kind.Normal? ==> f.kind.generation == number
    ensures WireOk(log, number, wire + [f])
  {
  }

  lemma HigherNumber(log: seq<Admission>, number: nat, number': nat, wire: seq<Frame>)
    requires WireOk(log, number, wire) && number <= number'
    ensures WireOk(log, number', wire)
  {
  }

  lemma SafetyKeepsWire(c: Config, s: State, ch: Choice)
    requires Wire(s) && s.pc.InSafety?
    ensures Wire(TxStep(c, s, ch))
  {
    if s.pc.safety.SafetySend? && ch.yes {
      OneMoreFrame(s.accepted, s.local.schedule.sequence, s.wire, SafetyFrame(s.pc.safety.positions, ch.t));
    }
  }

  lemma ReadKeepsWire(c: Config, s: State)
    requires TransportOk(c, s) && CacheOk(c, s) && Wire(s) && s.pc == InLoop(TxRead)
    ensures Wire(ReadStep(c, s))
  {
    if Load(s.memory, s.box.reader).phase.Won? {
      WonReadHoldsNewest(c, s);
    }
    HigherNumber(s.accepted, s.local.schedule.sequence, ReadStep(c, s).local.schedule.sequence, s.wire);
  }

  lemma SettleMakesJob(c: Config, s: State, ch: Choice)
    requires c.timing.group && s.pc == InLoop(Settle)
    ensures JobOk(SettleStep(c, s, ch))
  {
  }

  lemma LoopKeepsWire(c: Config, s: State, ch: Choice)
    requires c.timing.group && TransportOk(c, s) && CacheOk(c, s) && Wire(s) && s.pc.InLoop?
    ensures Wire(LoopStep(c, s, ch))
  {
    match s.pc.loop
    case TxRead => ReadKeepsWire(c, s);
    case Settle => SettleMakesJob(c, s, ch);
    case _ =>
  }

  lemma SendKeepsWire(c: Config, s: State)
    requires ValidConfig(c) && c.timing.group && PublishedOk(c, s.ctl.pc, s.accepted, s.published)
    requires CacheOk(c, s) && Wire(s) && s.pc.InFrames?
    ensures WireOk(s.accepted, s.local.schedule.sequence, s.wire + [NextFrame(c, s)])
  {
    if s.local.schedule.Active() {
      assert FromLog(c, s.box.cache, s.accepted);
    }
    OneMoreFrame(s.accepted, s.local.schedule.sequence, s.wire, NextFrame(c, s));
  }

  lemma FramesKeepWire(c: Config, s: State, ch: Choice)
    requires ValidConfig(c) && c.timing.group && PublishedOk(c, s.ctl.pc, s.accepted, s.published)
    requires CacheOk(c, s) && Wire(s) && s.pc.InFrames?
    ensures Wire(FrameStep(c, s, ch))
  {
    SendKeepsWire(c, s);
  }

  // ----- every run

  ghost predicate Delivery(c: Config, s: State) {
    && TransportOk(c, s) && CacheOk(c, s) && |s.ctl.row.values| == c.axes * FIELDS
    && (if c.timing.group then Admissions(c, s.ctl, s.accepted, s.published) && Wire(s) else !Checking(s.ctl.pc))
  }

  lemma ControlKeepsShape(c: Config, s: State, ch: Choice)
    requires ValidChoice(c, s, ch) && |s.ctl.row.values| == c.axes * FIELDS
    ensures |ControlStep(c, s, ch).ctl.row.values| == c.axes * FIELDS
    ensures !c.timing.group && !Checking(s.ctl.pc) ==> !Checking(ControlStep(c, s, ch).ctl.pc)
  {
  }

  lemma ControlKeepsDelivery(c: Config, s: State, ch: Choice)
    requires ValidConfig(c) && ValidChoice(c, s, ch) && Delivery(c, s)
    ensures Delivery(c, ControlStep(c, s, ch))
  {
    ControlKeepsShape(c, s, ch);
    if s.ctl.pc.Check4? {
      AdmittedIsNewer(c, s);
    }
    ControlKeepsTransport(c, s, ch);
    ControlKeepsCache(c, s, ch);
    if c.timing.group {
      ControlKeepsAdmissions(c, s, ch);
      ControlKeepsWire(c, s, ch);
    }
  }

  lemma TxLeavesControl(c: Config, s: State, ch: Choice)
    ensures var s' := TxStep(c, s, ch);
      s'.ctl == s.ctl && s'.memory == s.memory && s'.accepted == s.accepted && s'.published == s.published
  {
  }

  lemma TxKeepsDelivery(c: Config, s: State, ch: Choice)
    requires ValidConfig(c) && Delivery(c, s)
    ensures Delivery(c, TxStep(c, s, ch))
  {
    TxLeavesControl(c, s, ch);
    TxKeepsCache(c, s, ch);
    if c.timing.group {
      match s.pc
      case InSafety(_) => SafetyKeepsWire(c, s, ch);
      case InLoop(_) => LoopKeepsWire(c, s, ch);
      case InFrames(_) => FramesKeepWire(c, s, ch);
    }
  }

  lemma StepKeepsDelivery(c: Config, s: State, s': State, who: Actor, ch: Choice)
    requires ValidConfig(c) && Delivery(c, s) && Step(c, s, s', who, ch)
    ensures Delivery(c, s')
  {
    match who
    case ControlThread => ControlKeepsDelivery(c, s, ch);
    case SendThread => TxKeepsDelivery(c, s, ch);
    case Environment(e) => assert s'.pc == s.pc && s'.ctl == s.ctl && s'.box == s.box;
  }

  lemma InitialDelivery(c: Config, s: State)
    requires ValidConfig(c) && Initial(c, s)
    ensures Delivery(c, s)
  {
  }
}
