/** The line-oriented record reader of BSP input files
    (`org.apache.hama.bsp.LineRecordReader`): a cursor `pos` that walks the
    byte range [start, end) of a split one line at a time, skipping the
    partial line a split starts in and lines longer than the configured
    maximum. The Hadoop `LineReader` underneath is an oracle that only
    reports how many bytes each `readLine` consumed. */
module LineRecords {
  import opened Wrappers
  import opened DataIO

  /** Java's narrowing cast of a `long` to an `int`: the low 32 bits, read
      as two's complement. */
  function IntCast(x: int): (r: Int32)
    ensures INT_MIN <= x <= INT_MAX ==> r == x
  {
    (x + 0x8000_0000) % 0x1_0000_0000 - 0x8000_0000
  }

  function Min(a: int, b: int): int { if a <= b then a else b }
  function Max(a: int, b: int): int { if a >= b then a else b }

  /** The maximum line length from the job configuration
      ("bsp.linerecordreader.maxlength"), `Integer.MAX_VALUE` when unset. */
  function ConfiguredMaxLength(conf: Option<Int32>): Int32
  {
    match conf
    case Some(m) => m
    case None => INT_MAX
  }

  /** The byte budget `next` passes to `readLine` at position `pos`: what is
      left of the split, capped at `Integer.MAX_VALUE`, but never less than
      the maximum line length, so the last line may run past `end`. */
  function ReadBudget(pos: int, end: int, maxLineLength: int): int
  {
    Max(IntCast(Min(INT_MAX, end - pos)), maxLineLength)
  }

  /** The Hadoop `LineReader` as an oracle: `answers` are the byte counts
      its successive `readLine` calls consume (0 at end of input, also once
      they run out), and `calls` records the (maxLineLength,
      maxBytesToConsume) arguments of every call. */
  class LineReader {
    var answers: seq<nat>
    var calls: seq<(int, int)>

    constructor (answers: seq<nat>)
      ensures this.answers == answers && calls == []
    {
      this.answers := answers;
      calls := [];
    }

    method ReadLine(maxLineLength: int, maxBytesToConsume: int) returns (n: nat)
      modifies this
      ensures n == (if old(answers) == [] then 0 else old(answers)[0])
      ensures answers == (if old(answers) == [] then [] else old(answers)[1..])
      ensures calls == old(calls) + [(maxLineLength, maxBytesToConsume)]
    {
      if answers == [] {
        n := 0;
      } else {
        n := answers[0];
        answers := answers[1..];
      }
      calls := calls + [(maxLineLength, maxBytesToConsume)];
    }
  }

  /** The outcome of one `next` call: whether a line was returned, the value
      last stored into the key (`None` if none was), the new position, and
      the (maxLineLength, maxBytesToConsume) arguments of the `readLine`
      calls made, in order, and the reader's answers still to come. */
  datatype NextResult = NextResult(found: bool, key: Option<int>, pos: int, calls: seq<(int, int)>, unread: seq<nat>)

  /** The first `k` elements of `s`, or all of it when it is shorter. */
  function Take<T>(s: seq<T>, k: nat): seq<T>
  {
    if k >= |s| then s else s[..k]
  }

  function Sum(s: seq<nat>): nat
  {
    if s == [] then 0 else s[0] + Sum(s[1..])
  }

  /** `next` from position `pos` with the oracle's answers still to come:
      while `pos < end`, store `pos` into the key and read a line; stop with
      false on a read of 0 bytes, otherwise advance `pos` by the bytes read
      and return true if the line is shorter than the maximum, else skip it
      and go on. */
  function NextRun(pos: int, end: int, maxLineLength: int, answers: seq<nat>): (r: NextResult)
    ensures pos >= end ==> r == NextResult(false, None, pos, [], answers)
    ensures pos < end ==> r.key.Some? && 1 <= |r.calls| <= |answers| + 1
    decreases |answers|
  {
    if pos >= end then NextResult(false, None, pos, [], answers)
    else
      var call := (maxLineLength, ReadBudget(pos, end, maxLineLength));
      if answers == [] then NextResult(false, Some(pos), pos, [call], [])
      else if answers[0] == 0 then NextResult(false, Some(pos), pos, [call], answers[1..])
      else if answers[0] < maxLineLength then NextResult(true, Some(pos), pos + answers[0], [call], answers[1..])
      else
        var r := NextRun(pos + answers[0], end, maxLineLength, answers[1..]);
        NextResult(r.found, if r.key.None? then Some(pos) else r.key, r.pos, [call] + r.calls, r.unread)
  }

  /** A run of `next` moves `pos` forward by exactly the bytes its reads
      consumed, so `pos` never decreases. */
  lemma {:induction false} NextRunAdvances(pos: int, end: int, maxLineLength: int, answers: seq<nat>)
    ensures var r := NextRun(pos, end, maxLineLength, answers);
      r.pos == pos + Sum(Take(answers, |r.calls|)) && r.pos >= pos
    decreases |answers|
  {
    if pos < end && answers != [] && answers[0] != 0 && answers[0] >= maxLineLength {
      var r := NextRun(pos + answers[0], end, maxLineLength, answers[1..]);
      NextRunAdvances(pos + answers[0], end, maxLineLength, answers[1..]);
      assert Take(answers, 1 + |r.calls|) == [answers[0]] + Take(answers[1..], |r.calls|);
    }
  }

  /** The key of a run that reads at all holds a position inside the split,
      and a returned line starts there and is shorter than the maximum. */
  lemma {:induction false} NextRunKey(pos: int, end: int, maxLineLength: int, answers: seq<nat>)
    ensures var r := NextRun(pos, end, maxLineLength, answers);
      && (pos < end ==> pos <= r.key.value < end)
      && (r.found ==> 0 < r.pos - r.key.value < maxLineLength)
    decreases |answers|
  {
    if pos < end && answers != [] && answers[0] != 0 && answers[0] >= maxLineLength {
      NextRunKey(pos + answers[0], end, maxLineLength, answers[1..]);
    }
  }

  /** Every `readLine` call of a run passes the maximum line length and a
      positive budget no smaller than it; every line read before the last
      one was non-empty and at least the maximum length, so it was skipped. */
  lemma {:induction false} NextRunCalls(pos: int, end: int, maxLineLength: int, answers: seq<nat>)
    ensures var r := NextRun(pos, end, maxLineLength, answers);
      && (forall j :: 0 <= j < |r.calls| ==>
            r.calls[j].0 == maxLineLength && r.calls[j].1 >= maxLineLength && r.calls[j].1 >= 1)
      && (forall j :: 0 <= j < |r.calls| - 1 ==> answers[j] >= maxLineLength && answers[j] > 0)
    decreases |answers|
  {
    if pos < end && answers != [] && answers[0] != 0 && answers[0] >= maxLineLength {
      NextRunCalls(pos + answers[0], end, maxLineLength, answers[1..]);
    }
  }

  /** A run that returns false with `pos` still inside the split stopped on
      a read that consumed nothing: a 0 answer, or the reader's end. */
  lemma {:induction false} NextRunStops(pos: int, end: int, maxLineLength: int, answers: seq<nat>)
    ensures var r := NextRun(pos, end, maxLineLength, answers);
      !r.found && pos < end && r.pos < end ==>
        |r.calls| > |answers| || answers[|r.calls| - 1] == 0
    decreases |answers|
  {
    if pos < end && answers != [] && answers[0] != 0 && answers[0] >= maxLineLength {
      NextRunStops(pos + answers[0], end, maxLineLength, answers[1..]);
    }
  }

  /** The outcome of a run of `next` that has already made the calls
      `done`, storing `lastKey` into the key, and goes on as `r`. */
  function Resume(done: seq<(int, int)>, lastKey: Option<int>, r: NextResult): NextResult
  {
    NextResult(r.found, if r.key.Some? then r.key else lastKey, r.pos, done + r.calls, r.unread)
  }

  /** The `next` loop as it runs: `done` are the calls already made and
      `lastKey` the value already stored into the key. */
  function NextFrom(pos: int, end: int, maxLineLength: int, answers: seq<nat>,
                    done: seq<(int, int)>, lastKey: Option<int>): NextResult
    decreases |answers|
  {
    if pos >= end then NextResult(false, lastKey, pos, done, answers)
    else
      var done' := done + [(maxLineLength, ReadBudget(pos, end, maxLineLength))];
      if answers == [] then NextResult(false, Some(pos), pos, done', [])
      else if answers[0] == 0 then NextResult(false, Some(pos), pos, done', answers[1..])
      else if answers[0] < maxLineLength then NextResult(true, Some(pos), pos + answers[0], done', answers[1..])
      else NextFrom(pos + answers[0], end, maxLineLength, answers[1..], done', Some(pos))
  }

  /** The loop as it runs finishes the run `NextRun` describes. */
  lemma {:induction false} NextFromResumes(pos: int, end: int, maxLineLength: int, answers: seq<nat>,
                                           done: seq<(int, int)>, lastKey: Option<int>)
    ensures NextFrom(pos, end, maxLineLength, answers, done, lastKey)
         == Resume(done, lastKey, NextRun(pos, end, maxLineLength, answers))
    decreases |answers|
  {
    if pos < end && answers != [] && answers[0] != 0 && answers[0] >= maxLineLength {
      var call := (maxLineLength, ReadBudget(pos, end, maxLineLength));
      var r' := NextRun(pos + answers[0], end, maxLineLength, answers[1..]);
      NextFromResumes(pos + answers[0], end, maxLineLength, answers[1..], done + [call], Some(pos));
      assert done + ([call] + r'.calls) == (done + [call]) + r'.calls;
    } else if pos >= end {
      assert done + [] == done;
    }
  }

  /** Hadoop's `LongWritable`, the mutable key `next` writes into. */
  class LongWritable {
    var value: int

    constructor ()
      ensures value == 0
    {
      value := 0;
    }
  }

  /** The loop of `next`: from `pos`, read lines until one ends before
      `maxLineLength` bytes, the reader is exhausted, or the split's end is
      passed; the key holds the position of the last line started. */
  method ReadLines(reader: LineReader, key: LongWritable, pos0: int, end: int, maxLineLength: Int32)
    returns (found: bool, pos: int)
    modifies reader, key
    ensures var r := NextRun(pos0, end, maxLineLength, old(reader.answers));
      && found == r.found
      && pos == r.pos
      && key.value == (if r.key.Some? then r.key.value else old(key.value))
      && reader.calls == old(reader.calls) + r.calls
      && reader.answers == r.unread
  {
    pos := pos0;
    ghost var c0 := reader.calls;
    ghost var k0 := key.value;
    ghost var done: seq<(int, int)> := [];
    ghost var lastKey: Option<int> := None;
    NextFromResumes(pos, end, maxLineLength, reader.answers, done, lastKey);
    assert [] + NextRun(pos, end, maxLineLength, reader.answers).calls
        == NextRun(pos, end, maxLineLength, reader.answers).calls;
    ghost var r0 := NextFrom(pos, end, maxLineLength, reader.answers, done, lastKey);
    while pos < end
      invariant reader.calls == c0 + done
      invariant r0 == NextFrom(pos, end, maxLineLength, reader.answers, done, lastKey)
      invariant key.value == (if lastKey.Some? then lastKey.value else k0)
      decreases |reader.answers|
    {
      key.value := pos;
      var budget := Max(IntCast(Min(INT_MAX, end - pos)), maxLineLength);
      done := done + [(maxLineLength, budget)];
      lastKey := Some(pos);
      var newSize := reader.ReadLine(maxLineLength, budget);
      if newSize == 0 {
        return false, pos;
      }
      pos := pos + newSize;
      if newSize < maxLineLength {
        return true, pos;
      }
    }
    return false, pos;
  }

  /** The reader of one split. `start`, `end` and `maxLineLength` are fixed
      once a constructor has run; `pos` is the cursor `next` advances. */
  class LineRecordReader {
    const start: int
    var pos: int
    const end: int
    const maxLineLength: Int32
    const reader: LineReader

    /** The stream constructor with an explicit maximum line length. */
    constructor FromStream(reader: LineReader, offset: int, endOffset: int, maxLineLength: Int32)
      ensures start == offset && pos == offset && end == endOffset
      ensures this.maxLineLength == maxLineLength && this.reader == reader
    {
      this.maxLineLength := maxLineLength;
      this.reader := reader;
      start := offset;
      pos := offset;
      end := endOffset;
    }

    /** The stream constructor taking the maximum line length from the
        configuration. */
    constructor FromStreamConf(reader: LineReader, offset: int, endOffset: int, conf: Option<Int32>)
      ensures start == offset && pos == offset && end == endOffset
      ensures maxLineLength == ConfiguredMaxLength(conf) && this.reader == reader
    {
      maxLineLength := ConfiguredMaxLength(conf);
      this.reader := reader;
      start := offset;
      pos := offset;
      end := endOffset;
    }

    /** The split constructor. `reader` reads the file from the seek position
        (one byte before the split unless it starts the file), or the
        decompressed stream when `compressed`; a compressed split is read to
        the end of the stream, and any other split that does not start the
        file drops the partial line it starts in, by reading one line from
        the byte before it. */
    constructor FromSplit(reader: LineReader, splitStart: int, splitLength: int, compressed: bool, conf: Option<Int32>)
      modifies reader
      ensures maxLineLength == ConfiguredMaxLength(conf) && this.reader == reader && pos == start
      ensures compressed ==> end == LONG_MAX && start == splitStart && unchanged(reader)
      ensures !compressed && splitStart == 0 ==> end == splitLength && start == 0 && unchanged(reader)
      ensures !compressed && splitStart != 0 ==>
        var skipped := if old(reader.answers) == [] then 0 else old(reader.answers)[0];
        && end == splitStart + splitLength
        && start == splitStart - 1 + skipped
        && reader.answers == (if old(reader.answers) == [] then [] else old(reader.answers)[1..])
        && reader.calls == old(reader.calls) + [(0, IntCast(Min(INT_MAX, splitLength + 1)))]
    {
      maxLineLength := ConfiguredMaxLength(conf);
      this.reader := reader;
      var s := splitStart;
      var e := splitStart + splitLength;
      var skipFirstLine := false;
      if compressed {
        e := LONG_MAX;
      } else if s != 0 {
        skipFirstLine := true;
        s := s - 1;
      }
      if skipFirstLine {
        var n := reader.ReadLine(0, IntCast(Min(INT_MAX, e - s)));
        s := s + n;
      }
      start := s;
      end := e;
      pos := s;
    }

    /** Read a line: the outcome is `NextRun` from the current position over
        the reader's pending answers; the key ends up holding the position
        of the last line read. */
    method Next(key: LongWritable) returns (found: bool)
      modifies this`pos, reader, key
      ensures var r := NextRun(old(pos), end, maxLineLength, old(reader.answers));
        && found == r.found
        && pos == r.pos
        && key.value == (if r.key.Some? then r.key.value else old(key.value))
        && reader.calls == old(reader.calls) + r.calls
        && reader.answers == r.unread
    {
      found, pos := ReadLines(reader, key, pos, end, maxLineLength);
    }

    function GetPos(): (p: int)
      reads this
      ensures p == pos
    {
      pos
    }
  }
}
