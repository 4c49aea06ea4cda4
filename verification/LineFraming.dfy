/** Cutting the serial byte stream into readings (raspberry-scanner/scanner_service.py,
    `SerialLineReader.read`). Values are kept as raw bytes. */
module LineFraming {
  type Byte = b: int | 0 <= b < 256

  const LF: Byte := 10
  const CR: Byte := 13
  const MAX_BUFFER := 8192
  const MAX_CHUNK := 1024

  predicate IsDelimiter(b: Byte) {
    b == LF || b == CR
  }

  // ----- what a stream contains -----

  /** The pieces between delimiters: one more than there are delimiters. */
  function Segments(s: seq<Byte>): (r: seq<seq<Byte>>)
    ensures |r| >= 1
  {
    if s == [] then [[]]
    else
      var rest := Segments(s[1..]);
      if IsDelimiter(s[0]) then [[]] + rest else [[s[0]] + rest[0]] + rest[1..]
  }

  function NonEmpty(pieces: seq<seq<Byte>>): seq<seq<Byte>> {
    if pieces == [] then []
    else (if pieces[0] == [] then [] else [pieces[0]]) + NonEmpty(pieces[1..])
  }

  /** The maximal delimiter-free runs that a delimiter has ended. */
  function Runs(s: seq<Byte>): seq<seq<Byte>> {
    var pieces := Segments(s);
    NonEmpty(pieces[..|pieces| - 1])
  }

  /** What follows the last delimiter. */
  function Tail(s: seq<Byte>): seq<Byte> {
    var pieces := Segments(s);
    pieces[|pieces| - 1]
  }

  // ----- the reader -----

  /** `bytearray.find`. */
  function Find(s: seq<Byte>, b: Byte): (i: int)
    ensures -1 <= i < |s|
    ensures i >= 0 ==> s[i] == b && forall k :: 0 <= k < i ==> s[k] != b
    ensures i < 0 ==> b !in s
  {
    if s == [] then -1
    else if s[0] == b then 0
    else
      var i := Find(s[1..], b);
      if i < 0 then -1 else i + 1
  }

  /** The first delimiter, or the length when there is none. */
  function FirstDelimiter(s: seq<Byte>): (i: nat)
    ensures i <= |s|
    ensures i < |s| ==> IsDelimiter(s[i])
    ensures forall k :: 0 <= k < i ==> !IsDelimiter(s[k])
  {
    if s == [] || IsDelimiter(s[0]) then 0 else 1 + FirstDelimiter(s[1..])
  }

  function SkipDelimiters(s: seq<Byte>): (r: seq<Byte>)
    ensures |r| <= |s|
  {
    if s != [] && IsDelimiter(s[0]) then SkipDelimiters(s[1..]) else s
  }

  /** Readings taken from a buffer, and what is left in it. */
  function Frames(buffer: seq<Byte>): (seq<seq<Byte>>, seq<Byte>)
    decreases |buffer|
  {
    var end := FirstDelimiter(buffer);
    if end == |buffer| then ([], buffer)
    else
      var rest := Frames(SkipDelimiters(buffer[end + 1..]));
      ([buffer[..end]] + rest.0, rest.1)
  }

  datatype Input = NotReady | EndOfFile | Chunk(bytes: seq<Byte>)

  datatype Outcome = Readings(values: seq<seq<Byte>>) | ConnectionLost | LineTooLong

  /** One `read`: the outcome, and the buffer afterwards. */
  function ReadOnce(buffer: seq<Byte>, input: Input): (Outcome, seq<Byte>) {
    match input
    case NotReady => (Readings([]), buffer)
    case EndOfFile => (ConnectionLost, buffer)
    case Chunk(bytes) =>
      if |buffer + bytes| > MAX_BUFFER then (LineTooLong, [])
      else (Readings(Frames(buffer + bytes).0), Frames(buffer + bytes).1)
  }

  class SerialLineReader {
    var buffer: seq<Byte>

    constructor ()
      ensures buffer == []
    {
      buffer := [];
    }

    method Read(input: Input) returns (outcome: Outcome)
      modifies this
      ensures (outcome, buffer) == ReadOnce(old(buffer), input)
    {
      match input {
        case NotReady => outcome := Readings([]);
        case EndOfFile => outcome := ConnectionLost;
        case Chunk(bytes) =>
          buffer := buffer + bytes;
          if |buffer| > MAX_BUFFER {
            buffer := [];
            return LineTooLong;
          }
          var readings := TakeReadings();
          outcome := Readings(readings);
      }
    }

    /** The framing loop. */
    method TakeReadings() returns (readings: seq<seq<Byte>>)
      modifies this
      ensures (readings, buffer) == Frames(old(buffer))
    {
      hide Frames, FirstDelimiter, SkipDelimiters, Find;
      readings := [];
      ghost var whole := Frames(buffer);
      assert [] + whole.0 == whole.0;
      while true
        invariant whole == (readings + Frames(buffer).0, Frames(buffer).1)
        decreases |buffer|
      {
        var lf, cr := Find(buffer, LF), Find(buffer, CR);
        if lf < 0 && cr < 0 {
          FrameNone(buffer);
          assert readings + [] == readings;
          return;
        }
        var end := if cr < 0 || (0 <= lf < cr) then lf else cr;
        assert end == FirstDelimiter(buffer);
        var line := buffer[..end];
        var delimiterEnd := end + 1;
        while delimiterEnd < |buffer| && IsDelimiter(buffer[delimiterEnd])
          invariant end + 1 <= delimiterEnd <= |buffer| && end == FirstDelimiter(buffer) && line == buffer[..end]
          invariant whole == (readings + Frames(buffer).0, Frames(buffer).1)
          invariant SkipDelimiters(buffer[delimiterEnd..]) == SkipDelimiters(buffer[end + 1..])
        {
          SkipOne(buffer[delimiterEnd..]);
          assert buffer[delimiterEnd..][1..] == buffer[delimiterEnd + 1..];
          delimiterEnd := delimiterEnd + 1;
        }
        SkipNone(buffer[delimiterEnd..]);
        TakeOne(readings, buffer, delimiterEnd);
        buffer := buffer[delimiterEnd..];
        readings := readings + [line];
      }
    }
  }

  lemma FrameNone(buffer: seq<Byte>)
    requires forall k :: 0 <= k < |buffer| ==> !IsDelimiter(buffer[k])
    ensures Frames(buffer) == ([], buffer)
  {
  }

  lemma SkipOne(s: seq<Byte>)
    requires s != [] && IsDelimiter(s[0])
    ensures SkipDelimiters(s) == SkipDelimiters(s[1..])
  {
  }

  lemma SkipNone(s: seq<Byte>)
    requires s == [] || !IsDelimiter(s[0])
    ensures SkipDelimiters(s) == s
  {
  }

  lemma TakeOne(readings: seq<seq<Byte>>, buffer: seq<Byte>, stop: nat)
    requires FirstDelimiter(buffer) < stop <= |buffer|
    requires SkipDelimiters(buffer[FirstDelimiter(buffer) + 1..]) == buffer[stop..]
    ensures (readings + Frames(buffer).0, Frames(buffer).1)
      == (readings + [buffer[..FirstDelimiter(buffer)]] + Frames(buffer[stop..]).0, Frames(buffer[stop..]).1)
  {
    hide Frames, FirstDelimiter, SkipDelimiters;
    FrameStep(buffer);
    var line, rest := buffer[..FirstDelimiter(buffer)], Frames(buffer[stop..]).0;
    assert readings + ([line] + rest) == (readings + [line]) + rest;
  }

  // ----- one buffer -----

  lemma {:induction false} SegmentsFree(s: seq<Byte>)
    requires forall k :: 0 <= k < |s| ==> !IsDelimiter(s[k])
    ensures Segments(s) == [s]
  {
    if s != [] {
      SegmentsFree(s[1..]);
      assert [s[0]] + s[1..] == s;
    }
  }

  lemma {:induction false} SegmentsCut(a: seq<Byte>, d: Byte, b: seq<Byte>)
    requires forall k :: 0 <= k < |a| ==> !IsDelimiter(a[k])
    requires IsDelimiter(d)
    ensures Segments(a + [d] + b) == [a] + Segments(b)
  {
    var s := a + [d] + b;
    if a == [] {
      assert s[1..] == b;
    } else {
      assert s[1..] == a[1..] + [d] + b;
      SegmentsCut(a[1..], d, b);
      assert [a[0]] + a[1..] == a;
    }
  }

  lemma RunsCons(a: seq<Byte>, d: Byte, b: seq<Byte>)
    requires forall k :: 0 <= k < |a| ==> !IsDelimiter(a[k])
    requires IsDelimiter(d)
    ensures Runs(a + [d] + b) == (if a == [] then [] else [a]) + Runs(b)
    ensures Tail(a + [d] + b) == Tail(b)
  {
    SegmentsCut(a, d, b);
    var pieces := Segments(b);
    assert ([a] + pieces)[..|pieces|] == [a] + pieces[..|pieces| - 1];
    assert ([a] + pieces[..|pieces| - 1])[1..] == pieces[..|pieces| - 1];
  }

  lemma {:induction false} SkipKeeps(s: seq<Byte>)
    ensures Runs(SkipDelimiters(s)) == Runs(s) && Tail(SkipDelimiters(s)) == Tail(s)
    ensures SkipDelimiters(s) != [] ==> !IsDelimiter(SkipDelimiters(s)[0])
  {
    if s != [] && IsDelimiter(s[0]) {
      assert s == [] + [s[0]] + s[1..];
      RunsCons([], s[0], s[1..]);
      SkipKeeps(s[1..]);
    }
  }

  /** A read yields exactly the ended runs of its buffer, preceded by one empty reading when the
      buffer starts with a delimiter; the unended tail stays. */
  lemma {:induction false} FramesAreRuns(buffer: seq<Byte>)
    ensures Frames(buffer).1 == Tail(buffer)
    ensures Frames(buffer).0 == (if buffer != [] && IsDelimiter(buffer[0]) then [[]] else []) + Runs(buffer)
    decreases |buffer|
  {
    var end := FirstDelimiter(buffer);
    if end == |buffer| {
      SegmentsFree(buffer);
    } else {
      var line, rest := buffer[..end], SkipDelimiters(buffer[end + 1..]);
      assert buffer == line + [buffer[end]] + buffer[end + 1..];
      RunsCons(line, buffer[end], buffer[end + 1..]);
      SkipKeeps(buffer[end + 1..]);
      FramesAreRuns(rest);
      assert [] + Runs(rest) == Runs(rest);
    }
  }

  // ----- a stream arriving in chunks -----

  /** The last piece of `x` and the first of `y` become one. */
  function Weld(x: seq<seq<Byte>>, y: seq<seq<Byte>>): seq<seq<Byte>>
    requires |x| >= 1 && |y| >= 1
  {
    x[..|x| - 1] + [x[|x| - 1] + y[0]] + y[1..]
  }

  lemma WeldCons(p: seq<Byte>, x: seq<seq<Byte>>, y: seq<seq<Byte>>)
    requires |x| >= 1 && |y| >= 1
    ensures Weld([p] + x, y) == [p] + Weld(x, y)
  {
    assert ([p] + x)[..|x|] == [p] + x[..|x| - 1];
  }

  lemma WeldHead(b: Byte, x: seq<seq<Byte>>, y: seq<seq<Byte>>)
    requires |x| >= 1 && |y| >= 1
    ensures |Weld(x, y)| >= 1
    ensures Weld([[b] + x[0]] + x[1..], y) == [[b] + Weld(x, y)[0]] + Weld(x, y)[1..]
  {
    if |x| == 1 {
      assert [b] + (x[0] + y[0]) == ([b] + x[0]) + y[0];
    } else {
      var w := Weld(x[1..], y);
      assert x == [x[0]] + x[1..];
      WeldCons(x[0], x[1..], y);
      WeldCons([b] + x[0], x[1..], y);
      assert ([x[0]] + w)[1..] == w;
    }
  }

  lemma {:induction false} SegmentsConcat(a: seq<Byte>, b: seq<Byte>)
    ensures Segments(a + b) == Weld(Segments(a), Segments(b))
  {
    hide Weld;
    if a == [] {
      assert a + b == b;
      WeldEmpty(Segments(b));
    } else {
      assert (a + b)[1..] == a[1..] + b;
      SegmentsConcat(a[1..], b);
      if IsDelimiter(a[0]) {
        WeldCons([], Segments(a[1..]), Segments(b));
      } else {
        WeldHead(a[0], Segments(a[1..]), Segments(b));
      }
    }
  }

  lemma WeldEmpty(y: seq<seq<Byte>>)
    requires |y| >= 1
    ensures Weld([[]], y) == y
  {
    assert [] + y[0] == y[0];
  }

  lemma {:induction false} NonEmptyConcat(xs: seq<seq<Byte>>, ys: seq<seq<Byte>>)
    ensures NonEmpty(xs + ys) == NonEmpty(xs) + NonEmpty(ys)
  {
    if xs == [] {
      assert xs + ys == ys;
    } else {
      assert (xs + ys)[1..] == xs[1..] + ys;
      NonEmptyConcat(xs[1..], ys);
    }
  }

  lemma {:induction false} TailIsFree(s: seq<Byte>)
    ensures forall k :: 0 <= k < |Tail(s)| ==> !IsDelimiter(Tail(s)[k])
  {
    if s != [] {
      TailIsFree(s[1..]);
      var rest := Segments(s[1..]);
      assert Tail(s) == if |rest| == 1 && !IsDelimiter(s[0]) then [s[0]] + Tail(s[1..]) else Tail(s[1..]);
    }
  }

  /** Only the tail of what came before matters to what comes next. */
  lemma StreamSplits(a: seq<Byte>, b: seq<Byte>)
    ensures Runs(a + b) == Runs(a) + Runs(Tail(a) + b)
    ensures Tail(a + b) == Tail(Tail(a) + b)
  {
    hide Segments, NonEmpty;
    var x, y := Segments(a), Segments(b);
    SegmentsConcat(a, b);
    TailIsFree(a);
    SegmentsFree(Tail(a));
    SegmentsConcat(Tail(a), b);
    var joined := Weld([Tail(a)], y);
    WeldSplits(x, y);
    NonEmptyConcat(x[..|x| - 1], joined[..|joined| - 1]);
  }

  lemma WeldSplits(x: seq<seq<Byte>>, y: seq<seq<Byte>>)
    requires |x| >= 1 && |y| >= 1
    ensures var joined := Weld([x[|x| - 1]], y);
      && |joined| == |y| && |Weld(x, y)| == |x| - 1 + |y|
      && Weld(x, y)[..|Weld(x, y)| - 1] == x[..|x| - 1] + joined[..|joined| - 1]
      && Weld(x, y)[|Weld(x, y)| - 1] == joined[|joined| - 1]
  {
  }

  function Concat(chunks: seq<seq<Byte>>): seq<Byte> {
    if chunks == [] then [] else Concat(chunks[..|chunks| - 1]) + chunks[|chunks| - 1]
  }

  /** All readings, in order, of reads that each find one chunk; None once a read overflows. */
  datatype Progress = Progress(readings: seq<seq<Byte>>, buffer: seq<Byte>) | Overflowed

  function ReadChunks(chunks: seq<seq<Byte>>): Progress {
    if chunks == [] then Progress([], [])
    else
      match ReadChunks(chunks[..|chunks| - 1])
      case Overflowed => Overflowed
      case Progress(readings, buffer) =>
        var (outcome, after) := ReadOnce(buffer, Chunk(chunks[|chunks| - 1]));
        if outcome.Readings? then Progress(readings + outcome.values, after) else Overflowed
  }

  /** However the stream is chunked, the non-empty readings are its ended runs, in order, and the
      buffer holds its unended tail. */
  lemma {:induction false} ChunkingDoesNotMatter(chunks: seq<seq<Byte>>)
    requires ReadChunks(chunks).Progress?
    ensures NonEmpty(ReadChunks(chunks).readings) == Runs(Concat(chunks))
    ensures ReadChunks(chunks).buffer == Tail(Concat(chunks))
  {
    hide Segments, NonEmpty, Frames, Runs, Tail;
    if chunks != [] {
      var front, chunk := chunks[..|chunks| - 1], chunks[|chunks| - 1];
      var before := ReadChunks(front);
      ChunkingDoesNotMatter(front);
      var buffer := before.buffer + chunk;
      FramesAreRuns(buffer);
      StreamSplits(Concat(front), chunk);
      NonEmptyConcat(before.readings, Frames(buffer).0);
      RunsAreNonEmpty(buffer);
      if buffer != [] && IsDelimiter(buffer[0]) {
        NonEmptyConcat([[]], Runs(buffer));
        AnEmptyReading();
      } else {
        assert [] + Runs(buffer) == Runs(buffer);
      }
    } else {
      NothingRead();
    }
  }

  lemma NothingRead()
    ensures NonEmpty([]) == Runs([]) == [] && Tail([]) == []
  {
  }

  lemma AnEmptyReading()
    ensures NonEmpty([[]]) == []
  {
  }

  lemma {:induction false} NonEmptyTwice(pieces: seq<seq<Byte>>)
    ensures NonEmpty(NonEmpty(pieces)) == NonEmpty(pieces)
  {
    if pieces != [] {
      NonEmptyTwice(pieces[1..]);
      if pieces[0] != [] {
        assert ([pieces[0]] + NonEmpty(pieces[1..]))[1..] == NonEmpty(pieces[1..]);
      } else {
        assert [] + NonEmpty(pieces[1..]) == NonEmpty(pieces[1..]);
      }
    }
  }

  lemma RunsAreNonEmpty(s: seq<Byte>)
    ensures NonEmpty(Runs(s)) == Runs(s)
  {
    NonEmptyTwice(Segments(s)[..|Segments(s)| - 1]);
  }

  /** A read adds an empty reading exactly when nothing was pending and the chunk starts with a
      delimiter; it adds at most that one. */
  lemma EmptyReadingIff(before: seq<Byte>, chunk: seq<Byte>)
    requires |Tail(before) + chunk| <= MAX_BUFFER
    ensures var (outcome, _) := ReadOnce(Tail(before), Chunk(chunk));
      && outcome.Readings?
      && ([] in outcome.values <==> Tail(before) == [] && chunk != [] && IsDelimiter(chunk[0]))
      && forall i :: 1 <= i < |outcome.values| ==> outcome.values[i] != []
  {
    hide Frames, Segments, Tail, Runs;
    var buffer := Tail(before) + chunk;
    FramesAreRuns(buffer);
    TailIsFree(before);
    RunsNotEmpty(buffer);
    if Tail(before) != [] { assert buffer[0] == Tail(before)[0]; } else { assert buffer == chunk; }
    var values := Frames(buffer).0;
    if buffer != [] && IsDelimiter(buffer[0]) { assert values[0] == []; }
  }

  lemma RunsNotEmpty(buffer: seq<Byte>)
    ensures forall i :: 0 <= i < |Runs(buffer)| ==> Runs(buffer)[i] != []
  {
    hide NonEmpty, Segments;
    NoEmptyRun(Segments(buffer)[..|Segments(buffer)| - 1]);
  }

  lemma {:induction false} NoEmptyRun(pieces: seq<seq<Byte>>)
    ensures [] !in NonEmpty(pieces)
  {
    if pieces != [] { NoEmptyRun(pieces[1..]); }
  }

  /** A read overflows exactly when what is pending and what arrives exceed 8192 bytes together; then both are
      dropped and the next read starts anew. Nothing else loses a byte. */
  lemma OverflowIff(buffer: seq<Byte>, chunk: seq<Byte>)
    ensures var (outcome, after) := ReadOnce(buffer, Chunk(chunk));
      && (outcome.LineTooLong? <==> |buffer| + |chunk| > 8192)
      && (outcome.LineTooLong? ==> after == [])
      && (!outcome.LineTooLong? ==> outcome.Readings? && after == Tail(buffer + chunk))
    ensures ReadOnce(buffer, NotReady) == (Readings([]), buffer)
    ensures ReadOnce(buffer, EndOfFile) == (ConnectionLost, buffer)
  {
    hide Frames, Tail;
    FramesAreRuns(buffer + chunk);
  }

  /** CR and LF arriving in two reads give an empty reading that one read would not give. */
  lemma SplitCrLfAddsAnEmptyReading()
    ensures ReadChunks([[65, CR, LF]]) == Progress([[65]], [])
    ensures ReadChunks([[65, CR], [LF]]) == Progress([[65], []], [])
  {
    OneLine([65], [CR, LF]);
    OneLine([65], [CR]);
    OneLine([], [LF]);
    assert [65] + [CR, LF] == [65, CR, LF];
    assert [65] + [CR] == [65, CR];
    assert [] + [LF] == [LF];
    OneChunk([65, CR, LF]);
    OneChunk([65, CR]);
    var two := [[65, CR], [LF]];
    assert two[..1] == [[65, CR]];
    assert [] + [LF] == [LF];
    assert [[65]] + [[]] == [[65], []];
    assert ReadChunks(two[..1]) == Progress([[65]], []);
    assert two[|two| - 1] == [LF];
  }

  lemma OneChunk(chunk: seq<Byte>)
    requires |chunk| <= MAX_BUFFER
    ensures ReadChunks([chunk]) == Progress(Frames(chunk).0, Frames(chunk).1)
  {
    assert [chunk][..0] == [];
    assert [] + chunk == chunk;
    assert [] + Frames(chunk).0 == Frames(chunk).0;
  }

  lemma OneLine(line: seq<Byte>, delimiters: seq<Byte>)
    requires forall k :: 0 <= k < |line| ==> !IsDelimiter(line[k])
    requires delimiters != [] && forall k :: 0 <= k < |delimiters| ==> IsDelimiter(delimiters[k])
    ensures Frames(line + delimiters) == ([line], [])
  {
    hide SkipDelimiters, Frames, FirstDelimiter;
    var buffer := line + delimiters;
    FirstDelimiterIs(buffer, |line|);
    assert buffer[..|line|] == line;
    assert buffer[|line| + 1..] == delimiters[1..];
    AllSkipped(delimiters[1..]);
    FrameStep(buffer);
    NoFrames();
    assert [line] + [] == [line];
  }

  lemma FirstDelimiterIs(s: seq<Byte>, end: nat)
    requires end < |s| && IsDelimiter(s[end])
    requires forall k :: 0 <= k < end ==> !IsDelimiter(s[k])
    ensures FirstDelimiter(s) == end
  {
    hide FirstDelimiter;
  }

  lemma FrameStep(buffer: seq<Byte>)
    requires FirstDelimiter(buffer) < |buffer|
    ensures var end := FirstDelimiter(buffer);
      var rest := Frames(SkipDelimiters(buffer[end + 1..]));
      Frames(buffer) == ([buffer[..end]] + rest.0, rest.1)
  {
  }

  lemma NoFrames()
    ensures Frames([]) == ([], [])
  {
  }

  lemma {:induction false} AllSkipped(s: seq<Byte>)
    requires forall k :: 0 <= k < |s| ==> IsDelimiter(s[k])
    ensures SkipDelimiters(s) == []
  {
    if s != [] { AllSkipped(s[1..]); }
  }

  // ----- overflow -----

  /** The overflow check weighs the pending tail plus the whole chunk, not the line: every chunk of at
      most 1024 bytes is accepted exactly when the pending tail is at most 7168 bytes. */
  lemma NeverOverflowsIff(tail: seq<Byte>)
    requires forall k :: 0 <= k < |tail| ==> !IsDelimiter(tail[k])
    ensures (forall chunk: seq<Byte> :: |chunk| <= MAX_CHUNK ==> ReadOnce(tail, Chunk(chunk)).0 != LineTooLong)
      <==> |tail| <= MAX_BUFFER - MAX_CHUNK
  {
    if |tail| > MAX_BUFFER - MAX_CHUNK {
      var chunk: seq<Byte> := seq(MAX_CHUNK, _ => LF);
      assert ReadOnce(tail, Chunk(chunk)).0 == LineTooLong;
    }
  }
}
