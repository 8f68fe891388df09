/** The payload of the command snapshot: src/pair_system_interface.cpp fills it, nine words an axis. */
module Packets {
  import opened Doubles
  import opened PairCommits

  datatype Command = Command(position: Double, velocity: Double, kp: Double, kd: Double, effort: Double)

  datatype Packet = Packet(command: Command, sequence: nat, publishedNs: int)

  type Batch = seq<Packet>

  datatype Word = Bits(d: Double) | Count(n: nat) | Time(t: int)

  const WORDS: nat := 9

  function ReleasedAt(position: Double): Command {
    Command(position, Fin(0.0), Fin(0.0), Fin(0.0), Fin(0.0))
  }

  /** Velocity, both gains and effort are zero; the position then exerts no torque. */
  predicate ZeroGain(c: Command) {
    IsZero(c.velocity) && IsZero(c.kp) && IsZero(c.kd) && IsZero(c.effort)
  }

  /** The command's own sequence and time stamp are unused and stay zero. */
  function PacketWords(p: Packet): (words: seq<Word>)
    ensures |words| == WORDS
  {
    var c := p.command;
    [Bits(c.position), Bits(c.velocity), Bits(c.kp), Bits(c.kd), Bits(c.effort), Count(0), Time(0),
     Count(p.sequence), Time(p.publishedNs)]
  }

  function Words(batch: Batch): (words: seq<Word>)
    ensures |words| == WORDS * |batch|
  {
    if batch == [] then [] else PacketWords(batch[0]) + Words(batch[1..])
  }

  function AsDouble(w: Word): Double { if w.Bits? then w.d else NaN }
  function AsCount(w: Word): nat { if w.Count? then w.n else 0 }
  function AsTime(w: Word): int { if w.Time? then w.t else 0 }

  function WordsPacket(words: seq<Word>): Packet
    requires |words| >= WORDS
  {
    Packet(Command(AsDouble(words[0]), AsDouble(words[1]), AsDouble(words[2]), AsDouble(words[3]), AsDouble(words[4])),
           AsCount(words[7]), AsTime(words[8]))
  }

  function Parse(words: seq<Word>): Batch {
    if |words| < WORDS then [] else [WordsPacket(words)] + Parse(words[WORDS..])
  }

  /** What the send thread parses out of a whole snapshot is what the control thread stored. */
  lemma {:induction false} ParseWords(batch: Batch)
    ensures Parse(Words(batch)) == batch
  {
    if batch != [] {
      ParseWords(batch[1..]);
      assert Words(batch)[WORDS..] == Words(batch[1..]);
      assert WordsPacket(Words(batch)) == batch[0];
    }
  }

  function Commands(batch: Batch): seq<Command> {
    seq(|batch|, i requires 0 <= i < |batch| => batch[i].command)
  }

  /** A row is released exactly if every command built from it is without gains, speed and effort. */
  lemma ReleasedIsZeroGain(values: seq<Double>, axes: nat, sequence: nat, at: int)
    requires |values| == axes * FIELDS
    ensures Released(values) <==> forall a | 0 <= a < axes :: ZeroGain(BatchOf(values, axes, sequence, at)[a].command)
  {
    if forall a | 0 <= a < axes :: ZeroGain(BatchOf(values, axes, sequence, at)[a].command) {
      forall i | 0 <= i < |values| && i % FIELDS != 0
        ensures IsZero(values[i])
      {
        var a := i / FIELDS;
        assert ZeroGain(BatchOf(values, axes, sequence, at)[a].command);
        assert i == 5 * a + i % FIELDS;
      }
    }
  }

  /** What writePair builds from one staged row. */
  function BatchOf(values: seq<Double>, axes: nat, sequence: nat, at: int): Batch
    requires |values| == axes * FIELDS
  {
    seq(axes, a requires 0 <= a < axes =>
      Packet(Command(values[5 * a], values[5 * a + 1], values[5 * a + 2], values[5 * a + 3], values[5 * a + 4]),
             sequence, at))
  }
}
