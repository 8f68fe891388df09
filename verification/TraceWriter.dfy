/**
 TraceBufferedWriter (src/stream_trace_io.cpp) on one open file. What the operating system answers
 to each write call is a script; a writer whose script has run out is still inside a call.
 */
module TraceWriter {

  const CAPACITY: nat := 1024 * 1024

  datatype Answer = Wrote(count: nat) | Interrupted | Refused

  datatype Outcome = Done | Failed | Waiting

  /** How one flush of `pending` goes: how much of it reached the file. */
  datatype Flushing = Flushing(written: nat, outcome: Outcome, rest: seq<Answer>)

  function Flushed(pending: seq<char>, script: seq<Answer>): (r: Flushing)
    ensures r.written <= |pending| && (r.outcome == Done ==> r.written == |pending|)
    ensures r.outcome == Failed ==> r.written < |pending|
    decreases |script|
  {
    if pending == [] then Flushing(0, Done, script)
    else if script == [] then Flushing(0, Waiting, [])
    else
      match script[0]
      case Interrupted => Flushed(pending, script[1..])
      case Refused => Flushing(0, Failed, script[1..])
      case Wrote(count) =>
        var n := if count <= |pending| then count else |pending|;
        if n == 0 then Flushing(0, Failed, script[1..])
        else
          var r := Flushed(pending[n..], script[1..]);
          r.(written := n + r.written)
  }

  /** Answers that let a flush go on. */
  predicate Willing(script: seq<Answer>) {
    forall i | 0 <= i < |script| :: script[i].Interrupted? || (script[i].Wrote? && script[i].count > 0)
  }

  /** How many characters these answers take. */
  function Total(script: seq<Answer>): nat {
    if script == [] then 0 else (if script[0].Wrote? then script[0].count else 0) + Total(script[1..])
  }

  /** A flush succeeds, fails and waits exactly by its answers: it goes on while they are willing, is done
      once they have taken everything, fails at the first that is not willing, and waits when they end. */
  lemma {:induction false} FlushFollowsAnswers(pending: seq<char>, script: seq<Answer>, k: nat)
    requires k <= |script| && Willing(script[..k])
    ensures Total(script[..k]) >= |pending| ==> Flushed(pending, script).outcome == Done
    ensures Total(script[..k]) < |pending| && k == |script| ==>
      Flushed(pending, script) == Flushing(Total(script), Waiting, [])
    ensures Total(script[..k]) < |pending| && k < |script| && (script[k].Refused? || script[k] == Wrote(0)) ==>
      Flushed(pending, script) == Flushing(Total(script[..k]), Failed, script[k + 1..])
    decreases |script|
  {
    assert k == |script| ==> script[..k] == script;
    if k > 0 && pending != [] {
      assert script[..k][0] == script[0] && script[..k][1..] == script[1..][..k - 1];
      assert k < |script| ==> script[1..][k - 1] == script[k] && script[1..][k - 1 + 1..] == script[k + 1..];
      var n := if script[0].Interrupted? then 0
               else if script[0].count <= |pending| then script[0].count else |pending|;
      assert n == 0 ==> pending[n..] == pending;
      FlushFollowsAnswers(pending[n..], script[1..], k - 1);
    }
  }

  /** After `offset` characters the whole flush is the flush of the rest. */
  predicate OnTheWay(whole: Flushing, pending: seq<char>, offset: nat, script: seq<Answer>) {
    && offset <= |pending|
    && var r := Flushed(pending[offset..], script);
       whole == Flushing(offset + r.written, r.outcome, r.rest)
  }

  lemma FirstAnswer(pending: seq<char>, script: seq<Answer>)
    requires pending != [] && script != []
    ensures script[0] == Interrupted ==> Flushed(pending, script) == Flushed(pending, script[1..])
    ensures script[0] == Refused || script[0] == Wrote(0) ==>
      Flushed(pending, script) == Flushing(0, Failed, script[1..])
    ensures script[0].Wrote? && script[0].count > 0 ==>
      var n := if script[0].count <= |pending| then script[0].count else |pending|;
      var r := Flushed(pending[n..], script[1..]);
      Flushed(pending, script) == Flushing(n + r.written, r.outcome, r.rest)
  {
  }

  lemma OneAnswer(whole: Flushing, pending: seq<char>, offset: nat, script: seq<Answer>)
    requires OnTheWay(whole, pending, offset, script) && offset < |pending| && script != []
    ensures script[0] == Interrupted ==> OnTheWay(whole, pending, offset, script[1..])
    ensures script[0] == Refused || script[0] == Wrote(0) ==> whole == Flushing(offset, Failed, script[1..])
    ensures script[0].Wrote? && script[0].count > 0 ==>
      var n := if script[0].count <= |pending| - offset then script[0].count else |pending| - offset;
      OnTheWay(whole, pending, offset + n, script[1..])
  {
    FirstAnswer(pending[offset..], script);
    if script[0].Wrote? {
      var n := if script[0].count <= |pending| - offset then script[0].count else |pending| - offset;
      assert pending[offset..][n..] == pending[offset + n..];
    }
  }

  lemma Joined(file: seq<char>, pending: seq<char>, offset: nat, count: nat)
    requires offset + count <= |pending|
    ensures file + pending[..offset] + pending[offset..offset + count] == file + pending[..offset + count]
  {
    assert pending[..offset] + pending[offset..offset + count] == pending[..offset + count];
  }

  class BufferedWriter {
    const buffer: array<char>
    var used: nat
    var open: bool
    var file: seq<char>
    var script: seq<Answer>

    ghost predicate Valid()
      reads this, buffer
    {
      buffer.Length > 0 && used <= buffer.Length
    }

    /** What the caller has handed over and is not lost: the file, then the buffer. */
    ghost function Contents(): seq<char>
      requires Valid()
      reads this, buffer
    {
      file + buffer[..used]
    }

    constructor (script: seq<Answer>)
      ensures Valid() && fresh(buffer) && buffer.Length == CAPACITY && Contents() == [] && open && this.script == script
    {
      buffer := new char[CAPACITY];
      used, open, file := 0, true, [];
      this.script := script;
    }

    /** One call into the operating system with the characters from `offset` on; how many it took. */
    method Write(offset: nat) returns (count: int)
      requires Valid() && offset < used && script != []
      modifies this`file, this`script
      ensures script == old(script)[1..]
      ensures match old(script)[0] {
        case Wrote(c) => count == if c <= used - offset then c else used - offset
        case Interrupted => count == -1
        case Refused => count == -2
      }
      ensures file == if count > 0 then old(file) + buffer[..used][offset..offset + count] else old(file)
    {
      var answer := script[0];
      script := script[1..];
      match answer
      case Interrupted => return -1;
      case Refused => return -2;
      case Wrote(c) =>
        count := if c <= used - offset then c else used - offset;
        file := file + buffer[offset..offset + count];
    }

    /** On an error part of the buffer may be in the file, and all of it is still in the buffer. */
    method Flush() returns (outcome: Outcome)
      requires Valid()
      modifies this`used, this`file, this`script
      ensures Valid()
      ensures FlushedTo(old(buffer[..used]), old(script), old(file), outcome)
      ensures used == if outcome == Done then 0 else old(used)
      ensures outcome == Done ==> file == old(Contents())
      ensures file <= old(Contents())
    {
      var offset := 0;
      ghost var pending := buffer[..used];
      ghost var whole := Flushed(pending, script);
      assert pending[0..] == pending && pending[..0] == [];
      while offset < used
        invariant 0 <= offset <= used == old(used) && (!open ==> offset == 0)
        invariant file == old(file) + pending[..offset]
        invariant open ==> OnTheWay(whole, pending, offset, script)
        decreases |script|, used - offset
      {
        if !open {
          return Failed;
        }
        if script == [] {
          return Waiting;
        }
        OneAnswer(whole, pending, offset, script);
        var count := Write(offset);
        if count == -1 {
          continue;
        }
        if count <= 0 {
          return Failed;
        }
        Joined(old(file), pending, offset, count);
        offset := offset + count;
      }
      assert pending[..offset] == pending;
      used := 0;
      return Done;
    }

    /** The file and the script after a flush that found `pending`, `first` and `was`. */
    ghost predicate FlushedTo(pending: seq<char>, first: seq<Answer>, was: seq<char>, outcome: Outcome)
      reads this
    {
      if open then
        var r := Flushed(pending, first);
        outcome == r.outcome && script == r.rest && file == was + pending[..r.written]
      else file == was && (outcome == Done <==> pending == []) && outcome != Waiting
    }

    /** Copy into the buffer, flushing whenever it is full and only then. It succeeds unless one of these
        flushes does not; `first` and `was` are the script and the file that one found. */
    method Text(s: seq<char>) returns (outcome: Outcome, ghost first: seq<Answer>, ghost was: seq<char>)
      requires Valid()
      modifies this`used, this`file, this`script, buffer
      ensures Valid() && open == old(open)
      ensures outcome == Done ==> Contents() == old(Contents()) + s
      ensures outcome == Done ==> used < buffer.Length || (s == [] && used == old(used))
      ensures file <= old(Contents()) + s
      ensures old(used) + |s| < buffer.Length ==> outcome == Done && file == old(file) && script == old(script)
      ensures outcome != Done ==>
        && used == buffer.Length && FlushedTo(buffer[..used], first, was, outcome)
        && was + buffer[..used] <= old(Contents()) + s
    {
      var rest := s;
      first, was := script, file;
      while rest != []
        invariant Valid() && open == old(open)
        invariant used < buffer.Length || (rest == s && used == old(used))
        invariant Contents() + rest == old(Contents()) + s
        invariant old(used) + |s| < buffer.Length ==>
          used + |rest| == old(used) + |s| && file == old(file) && script == old(script)
        decreases |rest|, used
      {
        var n := if |rest| <= buffer.Length - used then |rest| else buffer.Length - used;
        ghost var before, more := Contents(), rest;
        Append(rest[..n]);
        rest := rest[n..];
        assert Contents() + rest == before + more;
        if used == buffer.Length {
          first, was := script, file;
          var flushed := Flush();
          if flushed != Done {
            return flushed, first, was;
          }
          assert buffer[..0] == [];
        }
      }
      return Done, first, was;
    }

    /** The memcpy of one piece that fits. */
    method Append(piece: seq<char>)
      requires Valid() && used + |piece| <= buffer.Length
      modifies this`used, buffer
      ensures Valid() && used == old(used) + |piece| && Contents() == old(Contents()) + piece
    {
      for i := 0 to |piece|
        invariant Valid() && used == old(used)
        invariant buffer[..used + i] == old(buffer[..used]) + piece[..i]
      {
        buffer[used + i] := piece[i];
      }
      used := used + |piece|;
      assert piece[..|piece|] == piece;
    }

    /** Flush and give the descriptor up, which may report an error; a failing flush keeps it. */
    method Close(closes: bool) returns (outcome: Outcome)
      requires Valid()
      modifies this`used, this`file, this`script, this`open
      ensures Valid() && file <= old(Contents())
      ensures outcome == Done ==> !open && file == old(Contents()) && used == 0
      ensures old(open) ==>
        var flushed := Flushed(old(buffer[..used]), old(script)).outcome;
        && outcome == (if flushed != Done then flushed else if closes then Done else Failed)
        && open == (flushed != Done) && used == if flushed == Done then 0 else old(used)
      ensures !old(open) ==> outcome == Failed && !open && file == old(file)
    {
      outcome := Flush();
      if outcome == Done {
        var closed := open && closes;
        open := false;
        outcome := if closed then Done else Failed;
      }
    }
  }

  // ----- whole runs

  datatype Call = Text(s: seq<char>) | Flush | Close

  function AllText(calls: seq<Call>): seq<char> {
    if calls == [] then []
    else AllText(calls[..|calls| - 1]) + (match calls[|calls| - 1] case Text(s) => s case _ => [])
  }

  lemma {:induction false} AllTextGrows(calls: seq<Call>, n: nat)
    requires n <= |calls|
    ensures AllText(calls[..n]) <= AllText(calls)
    decreases |calls|
  {
    if n < |calls| {
      AllTextGrows(calls[..|calls| - 1], n);
      assert calls[..|calls| - 1][..n] == calls[..n];
    } else {
      assert calls[..n] == calls;
    }
  }

  /** Any calls, up to the first that does not succeed: nothing is lost, doubled or reordered, and
      whatever happened the file holds a prefix of the text. */
  method Run(calls: seq<Call>, script: seq<Answer>) returns (w: BufferedWriter, outcome: Outcome)
    ensures fresh(w) && w.Valid()
    ensures outcome == Done ==> w.Contents() == AllText(calls)
    ensures w.file <= AllText(calls)
  {
    w := new BufferedWriter(script);
    outcome := Done;
    for i := 0 to |calls|
      invariant fresh(w) && fresh(w.buffer) && w.Valid() && w.used < w.buffer.Length
      invariant w.Contents() == AllText(calls[..i])
    {
      assert calls[..i + 1][..i] == calls[..i];
      AllTextGrows(calls, i + 1);
      match calls[i] {
        case Text(s) =>
          var copied, _, _ := w.Text(s);
          outcome := copied;
        case Flush => outcome := w.Flush();
        case Close =>
          var closes: bool := *;
          outcome := w.Close(closes);
      }
      if outcome != Done {
        return;
      }
    }
    assert calls[..|calls|] == calls;
  }

  /** After a failed flush the whole buffer goes out again on the next success, so calling flush
      again repeats exactly what had already been written: the file is still the text if and only
      if that was nothing. */
  lemma RetryAfterFailure(file: seq<char>, pending: seq<char>, script: seq<Answer>)
    requires Flushed(pending, script).outcome == Failed
    requires Flushed(pending, Flushed(pending, script).rest).outcome == Done
    ensures var k := Flushed(pending, script).written;
      var retried := file + pending[..k] + pending[..Flushed(pending, Flushed(pending, script).rest).written];
      retried == file + pending <==> k == 0
  {
    var k := Flushed(pending, script).written;
    var again := Flushed(pending, Flushed(pending, script).rest).written;
    assert pending[..again] == pending;
    assert |file + pending[..k] + pending| == |file| + k + |pending|;
    if k == 0 {
      assert file + pending[..k] == file;
    }
  }

  lemma RetryCanDouble()
    ensures var script := [Wrote(1), Refused, Wrote(2)];
      var first := Flushed("ab", script);
      first.outcome == Failed && Flushed("ab", first.rest).outcome == Done && "ab"[..first.written] + "ab" == "aab"
  {
    var script := [Wrote(1), Refused, Wrote(2)];
    assert script[1..] == [Refused, Wrote(2)] && "ab"[1..] == "b" && [Refused, Wrote(2)][1..] == [Wrote(2)];
    assert Flushed("b", [Refused, Wrote(2)]) == Flushing(0, Failed, [Wrote(2)]);
    assert [Wrote(2)][1..] == [] && "ab"[2..] == [];
    assert Flushed([], []) == Flushing(0, Done, []);
    assert Flushed("ab", [Wrote(2)]).outcome == Done;
  }
}
