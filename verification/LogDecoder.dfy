/** dataStreamDecoder (internal/adapters/talos/logs.go): log lines out of byte frames, in batches.
    `finishLine` turns a bounded prefix and a truncated flag into text; here a line is that pair. */
module LogDecoder {
  import opened Sequences
  import opened Lines

  /** maxServiceLogLineRunes * utf8.UTFMax. */
  const MAX_LINE := 512 * 4

  const MAX_BATCH := 200

  datatype Line = Line(prefix: Bytes, truncated: bool)

  /** What is kept of a line. */
  function Cut(raw: Bytes): Line { Line(if |raw| > MAX_LINE then raw[..MAX_LINE] else raw, |raw| > MAX_LINE) }

  function CutAll(raw: seq<Bytes>): seq<Line> { Map(Cut, raw) }

  /** Rejected is a frame that carries error metadata. */
  datatype Received = Frame(bytes: Bytes) | EndOfStream | ReceiveFailed | Rejected

  datatype Batch = Batch(lines: seq<Line>, eof: bool)

  datatype NextResult = Decoded(batch: Batch) | StreamFailed | StreamRejected

  /** What must have been received for next to fail. */
  function Cause(r: NextResult): Received
    requires !r.Decoded?
  {
    if r.StreamFailed? then ReceiveFailed else Rejected
  }

  /** The lines of a whole stream: of its bytes, or of each frame on its own. */
  function LinesOf(frames: seq<Bytes>, recordFrames: bool): seq<Line> {
    if recordFrames then RecordLines(frames) else CutAll(Split(Flatten(frames)))
  }

  function RecordLines(frames: seq<Bytes>): seq<Line> {
    if frames == [] then []
    else RecordLines(frames[..|frames| - 1]) + CutAll(Split(frames[|frames| - 1]))
  }

  /** finishLine's text: a cut line loses the bytes of a character that was cut in two, and then the
      runes are bounded: the longest valid start is kept. `valid` is utf8.Valid and `bound` is boundRunes. */
  method LineText(line: Line, valid: Bytes -> bool, bound: Bytes -> string) returns (text: string, kept: Bytes)
    ensures text == bound(kept)
    ensures kept <= line.prefix && (!line.truncated ==> kept == line.prefix)
    ensures line.truncated ==>
      (kept == [] || valid(kept)) && forall j :: |kept| < j <= |line.prefix| ==> !valid(line.prefix[..j])
  {
    kept := line.prefix;
    if line.truncated {
      while |kept| > 0 && !valid(kept)
        invariant kept <= line.prefix && forall j :: |kept| < j <= |line.prefix| ==> !valid(line.prefix[..j])
        decreases |kept|
      {
        assert kept == line.prefix[..|kept|];
        kept := kept[..|kept| - 1];
      }
    }
    text := bound(kept);
  }

  lemma CutAllConcat(a: seq<Bytes>, b: seq<Bytes>)
    ensures CutAll(a + b) == CutAll(a) + CutAll(b)
  {
  }

  /** Adding to a line that is kept bounded keeps what cutting the whole line would keep. */
  lemma CutGrows(raw: Bytes, more: Bytes)
    ensures var kept := Cut(raw);
      var room := MAX_LINE - |kept.prefix|;
      var take := if |more| < room then |more| else room;
      take >= 0 && Cut(raw + more) == Line(kept.prefix + more[..take], kept.truncated || take < |more|)
  {
  }

  /** Lines have been handed out and the start of one is kept, for the bytes of `unit` after the
      lines that were settled before. */
  ghost predicate Reading(emitted: seq<Line>, kept: Line, settled: seq<Line>, unit: Bytes) {
    emitted == settled + CutAll(Ended(unit)) && kept == Cut(Pending(unit))
  }

  /** Where `unit` and the rest of the current frame are in what was received. */
  ghost predicate Placed(recordFrames: bool, received: seq<Bytes>, settled: seq<Line>, unit: Bytes, frame: Bytes) {
    if recordFrames then
      received != [] && received[|received| - 1] == unit + frame && settled == RecordLines(received[..|received| - 1])
    else settled == [] && Flatten(received) == unit + frame
  }

  ghost predicate BetweenRecords(received: seq<Bytes>, settled: seq<Line>, unit: Bytes) {
    unit == [] && settled == RecordLines(received)
  }

  lemma NewlineRead(emitted: seq<Line>, kept: Line, settled: seq<Line>, unit: Bytes)
    requires Reading(emitted, kept, settled, unit)
    ensures Reading(emitted + [kept], Line([], false), settled, unit + [NEWLINE])
  {
  }

  /** What is kept when the unit ends is its last line, unless there is nothing. */
  lemma UnitEnds(emitted: seq<Line>, kept: Line, settled: seq<Line>, unit: Bytes)
    requires Reading(emitted, kept, settled, unit)
    ensures emitted + (if kept == Line([], false) then [] else [kept]) == settled + CutAll(Split(unit))
  {
    SplitIsEndedAndRest(unit);
    if Pending(unit) != [] { CutAllConcat(Ended(unit), [Pending(unit)]); }
  }

  lemma RecordEnds(received: seq<Bytes>, settled: seq<Line>, unit: Bytes)
    requires Placed(true, received, settled, unit, [])
    ensures settled + CutAll(Split(unit)) == RecordLines(received)
  {
    assert unit + [] == unit;
  }

  lemma FrameArrives(recordFrames: bool, received: seq<Bytes>, settled: seq<Line>, unit: Bytes, frame: Bytes)
    requires if recordFrames then BetweenRecords(received, settled, unit)
      else Placed(false, received, settled, unit, [])
    ensures Placed(recordFrames, received + [frame], settled, unit, frame)
    ensures recordFrames && frame == [] ==> BetweenRecords(received + [frame], settled, unit)
  {
  }

  /** The frames among the first n entries. */
  function FramesTo(script: seq<Received>, n: nat): seq<Bytes>
    requires n <= |script|
  {
    if n == 0 then [] else FramesTo(script, n - 1) + if script[n - 1].Frame? then [script[n - 1].bytes] else []
  }

  predicate OnlyFrames(script: seq<Received>) { forall i :: 0 <= i < |script| ==> script[i].Frame? }

  class DataStream {
    /** What there is to be received; after the last entry the stream is at its end. */
    const script: seq<Received>
    var next: nat
    ghost var delivered: seq<Bytes>

    ghost predicate Valid()
      reads this
    {
      next <= |script| && delivered == FramesTo(script, next)
    }

    /** The last thing received was r. */
    predicate Took(r: Received)
      reads this
    {
      0 < next <= |script| && script[next - 1] == r
    }

    constructor (script: seq<Received>)
      ensures Valid() && this.script == script && next == 0
    {
      this.script, next, delivered := script, 0, [];
    }

    method Recv() returns (r: Received)
      requires Valid()
      modifies this
      ensures Valid() && delivered == old(delivered) + if r.Frame? then [r.bytes] else []
      ensures if old(next) < |script| then next == old(next) + 1 && Took(r) else r == EndOfStream && next == old(next)
    {
      if next >= |script| { return EndOfStream; }
      r := script[next];
      next := next + 1;
      if r.Frame? { delivered := delivered + [r.bytes]; }
    }
  }

  class DataStreamDecoder {
    /** Logs or kernel messages; each stream passes next the same value at every call. */
    const recordFrames: bool
    var frame: Bytes
    var partial: Bytes
    var truncated: bool
    var eof: bool
    /** The frames received and the lines handed out so far. */
    ghost var received: seq<Bytes>
    ghost var emitted: seq<Line>
    /** The bytes read so far that are split together, and the lines before them. */
    ghost var unit: Bytes
    ghost var settled: seq<Line>

    /** Everything received is either handed out as lines, or kept as the start of a line, or not
        looked at yet. */
    ghost predicate Accounted(frames: seq<Bytes>)
      reads this
    {
      if eof then partial == [] && !truncated && emitted == LinesOf(frames, recordFrames)
      else
        && Reading(emitted, Line(partial, truncated), settled, unit)
        && if recordFrames && frame == [] then BetweenRecords(frames, settled, unit)
             else Placed(recordFrames, frames, settled, unit, frame)
    }

    ghost predicate Valid()
      reads this
    {
      && (eof ==> frame == [])
      && forall frames {:trigger Accounted(frames)} :: frames == received ==> Accounted(frames)
    }

    constructor (recordFrames: bool)
      ensures Valid() && this.recordFrames == recordFrames && received == [] && emitted == [] && !eof && frame == []
    {
      this.recordFrames := recordFrames;
      frame, partial, truncated, eof := [], [], false, false;
      received, emitted, unit, settled := [], [], [], [];
    }

    method FinishLine() returns (line: Line)
      modifies this`partial, this`truncated
      ensures line == old(Line(partial, truncated)) && partial == [] && !truncated
    {
      line := Line(partial, truncated);
      partial := [];
      truncated := false;
    }

    /** Bytes before the next newline join the bounded prefix. */
    method Keep(part: Bytes)
      requires Reading(emitted, Line(partial, truncated), settled, unit) && NEWLINE !in part
      modifies this`partial, this`truncated, this`unit
      ensures unit == old(unit) + part && Reading(emitted, Line(partial, truncated), settled, unit)
    {
      CutGrows(Pending(unit), part);
      PendingGrows(unit, part);
      var room := MAX_LINE - |partial|;
      var take := if |part| < room then |part| else room;
      partial := partial + part[..take];
      if take < |part| { truncated := true; }
      unit := unit + part;
    }

    method EndLine() returns (line: Line)
      requires Reading(emitted, Line(partial, truncated), settled, unit)
      modifies this`partial, this`truncated, this`emitted, this`unit
      ensures Reading(emitted, Line(partial, truncated), settled, unit) && partial == [] && !truncated
      ensures unit == old(unit) + [NEWLINE] && emitted == old(emitted) + [line]
    {
      NewlineRead(emitted, Line(partial, truncated), settled, unit);
      line := FinishLine();
      emitted := emitted + [line];
      unit := unit + [NEWLINE];
    }

    /** The frame up to its next newline, if it has one, and past it. */
    method ReadLine() returns (line: Option<Line>)
      requires Valid() && !eof && frame != []
      modifies this`frame, this`partial, this`truncated, this`emitted, this`unit
      ensures Reading(emitted, Line(partial, truncated), settled, unit) &&
        Placed(recordFrames, received, settled, unit, frame)
      ensures |frame| < |old(frame)| && (line.None? ==> frame == [] && emitted == old(emitted))
      ensures line.Some? ==> partial == [] && !truncated && emitted == old(emitted) + [line.value]
    {
      assert Accounted(received);
      var end := FindByte(frame, NEWLINE);
      PlaceAt(end);
      Keep(frame[..end]);
      if end == |frame| {
        frame := frame[end..];
        return None;
      }
      PlacePastNewline(end);
      var ended := EndLine();
      frame := frame[end + 1..];
      return Some(ended);
    }

    /** One round of the loop in next over a frame that is not exhausted. */
    method ScanFrame() returns (more: seq<Line>)
      requires Valid() && !eof && frame != []
      modifies this`frame, this`partial, this`truncated, this`emitted, this`unit, this`settled
      ensures Valid() && |frame| < |old(frame)|
      ensures |more| <= 1 && emitted == old(emitted) + more
    {
      var line := ReadLine();
      more := if line.Some? then [line.value] else [];
      if |frame| == 0 && recordFrames {
        var rest := FinishRecord();
        more := more + rest;
      }
    }

    lemma PlacePastNewline(end: nat)
      requires end < |frame| && frame[end] == NEWLINE && Placed(recordFrames, received, settled, unit, frame[end..])
      ensures Placed(recordFrames, received, settled, unit + [NEWLINE], frame[end + 1..])
    {
    }

    lemma PlaceAt(end: nat)
      requires end <= |frame| && Placed(recordFrames, received, settled, unit, frame)
      ensures Placed(recordFrames, received, settled, unit + frame[..end], frame[end..])
    {
    }

    /** The frame is exhausted and ends its record. */
    method FinishRecord() returns (more: seq<Line>)
      requires recordFrames && !eof && frame == []
      requires Reading(emitted, Line(partial, truncated), settled, unit) && Placed(true, received, settled, unit, [])
      modifies this`partial, this`truncated, this`emitted, this`unit, this`settled
      ensures Valid() && |more| <= 1 && emitted == old(emitted) + more
      ensures old(Line(partial, truncated)) == Line([], false) ==> more == []
    {
      UnitEnds(emitted, Line(partial, truncated), settled, unit);
      RecordEnds(received, settled, unit);
      more := [];
      if |partial| > 0 || truncated {
        var line := FinishLine();
        more := [line];
      }
      emitted := emitted + more;
      settled, unit := emitted, [];
    }

    method ReceiveFrame(bytes: Bytes)
      requires Valid() && !eof && frame == []
      modifies this`frame, this`received
      ensures Valid() && frame == bytes && received == old(received) + [bytes]
    {
      assert Accounted(received);
      FrameArrives(recordFrames, received, settled, unit, bytes);
      frame := bytes;
      received := received + [bytes];
    }

    /** What is pending when the stream ends is a last line. */
    method Finish() returns (more: seq<Line>)
      requires Valid() && !eof && frame == []
      modifies this`partial, this`truncated, this`emitted, this`eof
      ensures Valid() && eof && |more| <= 1 && emitted == old(emitted) + more
    {
      assert Accounted(received);
      UnitEnds(emitted, Line(partial, truncated), settled, unit);
      assert unit + [] == unit && [] + CutAll(Split(unit)) == CutAll(Split(unit));
      assert settled + CutAll(Split([])) == settled;
      eof := true;
      more := [];
      if |partial| > 0 || truncated {
        var line := FinishLine();
        more := [line];
      }
      emitted := emitted + more;
    }

    /** This decoder is the one that reads the stream. */
    ghost predicate Reads(stream: DataStream)
      reads this, stream
    {
      Valid() && stream.Valid() && received == stream.delivered
    }

    /** The part of next that runs when the frame is exhausted; None when a frame has arrived. */
    method Receive(stream: DataStream) returns (r: Option<NextResult>)
      requires Reads(stream) && !eof && frame == []
      modifies this`frame, this`received, this`partial, this`truncated, this`emitted, this`eof, stream
      ensures Reads(stream) && stream.next >= old(stream.next)
      ensures r.Some? && r.value.Decoded? ==>
        var batch := r.value.batch;
        eof && batch.eof && |batch.lines| <= 1 && emitted == old(emitted) + batch.lines &&
        (stream.next == |stream.script| || stream.Took(EndOfStream))
      ensures r.None? || !r.value.Decoded? ==> !eof && emitted == old(emitted) && stream.next == old(stream.next) + 1
      ensures r.Some? && !r.value.Decoded? ==> stream.Took(Cause(r.value))
    {
      var data := stream.Recv();
      match data
      case EndOfStream =>
        var lines := Finish();
        return Some(Decoded(Batch(lines, true)));
      case ReceiveFailed => return Some(StreamFailed);
      case Rejected => return Some(StreamRejected);
      case Frame(bytes) =>
        ReceiveFrame(bytes);
        return None;
    }

    /** One round of the loop in next, with the lines of the batch so far. */
    method Round(stream: DataStream, lines: seq<Line>) returns (more: seq<Line>, r: Option<NextResult>)
      requires Reads(stream) && |lines| < MAX_BATCH && (frame == [] ==> lines == [])
      modifies this, stream
      ensures Reads(stream) && stream.next >= old(stream.next) && |more| <= 1 && emitted == old(emitted) + more &&
        (old(eof) ==> eof)
      ensures r.None? ==>
        && eof == old(eof) && |lines + more| < MAX_BATCH && (frame == [] ==> lines + more == [])
        && (stream.next > old(stream.next) || |frame| < |old(frame)|) && (stream.next > old(stream.next) ==> more == [])
      ensures r.Some? && r.value.Decoded? ==>
        && r.value.batch == Batch(lines + more, eof) && (!eof ==> lines + more != [] && |frame| < |old(frame)|)
        && (!eof ==> |lines + more| == MAX_BATCH || frame == [])
        && (eof && !old(eof) ==> stream.next == |stream.script| || stream.Took(EndOfStream))
      ensures r.Some? && !r.value.Decoded? ==>
        lines + more == [] && !eof && stream.Took(Cause(r.value)) && stream.next > old(stream.next)
    {
      more := [];
      if |frame| > 0 {
        more := ScanFrame();
        var full := |lines + more| >= MAX_BATCH || (|frame| == 0 && |lines + more| > 0);
        return more, if full then Some(Decoded(Batch(lines + more, false))) else None;
      }
      if eof { return [], Some(Decoded(Batch([], true))); }
      r := Receive(stream);
      if r.Some? && r.value.Decoded? { more := r.value.batch.lines; }
    }

    /** dataStreamDecoder.next. A batch holds at most 200 lines, and fewer only when a frame or the stream
        has ended; a failure hands out no line and loses none. */
    method Next(stream: DataStream) returns (r: NextResult)
      requires Reads(stream)
      modifies this, stream
      ensures Reads(stream) && (old(eof) ==> eof) && stream.next >= old(stream.next)
      ensures r.Decoded? ==>
        emitted == old(emitted) + r.batch.lines && |r.batch.lines| <= 200 && r.batch.eof == eof &&
        (!eof ==> r.batch.lines != [] && (|r.batch.lines| == 200 || frame == []))
      ensures !r.Decoded? ==>
        emitted == old(emitted) && !eof && stream.Took(if r == StreamFailed then ReceiveFailed else Rejected)
      ensures eof && !old(eof) ==> stream.next == |stream.script| || stream.Took(EndOfStream)
      ensures !eof ==> stream.next > old(stream.next) || |frame| < |old(frame)|
    {
      var lines: seq<Line> := [];
      while true
        invariant Reads(stream) && eof == old(eof) && emitted == old(emitted) + lines && |lines| < MAX_BATCH
        invariant frame == [] ==> lines == []
        invariant stream.next > old(stream.next) || (stream.next == old(stream.next) && |frame| <= |old(frame)|)
        decreases |stream.script| - stream.next, |frame|
      {
        var more, done := Round(stream, lines);
        lines := lines + more;
        if done.Some? { return done.value; }
      }
    }
  }

  // ---- Whole streams ------------------------------------------------------------------------------

  /** Reading a stream that does not fail to its end gives the lines of its bytes: how they were
      framed and how the lines were batched makes no difference. */
  method ReadAll(stream: DataStream, recordFrames: bool) returns (lines: seq<Line>)
    requires stream.Valid() && stream.next == 0 && OnlyFrames(stream.script)
    modifies stream
    ensures lines == LinesOf(FramesTo(stream.script, |stream.script|), recordFrames)
  {
    var decoder := new DataStreamDecoder(recordFrames);
    lines := [];
    while !decoder.eof
      invariant fresh(decoder) && decoder.Reads(stream) && lines == decoder.emitted &&
        decoder.recordFrames == recordFrames
      invariant decoder.eof ==> stream.next == |stream.script|
      decreases |stream.script| - stream.next, |decoder.frame|, !decoder.eof
    {
      var r := decoder.Next(stream);
      if r.Decoded? { lines := lines + r.batch.lines; }
    }
    assert decoder.Accounted(decoder.received);
  }

  // ---- Over the bytes -------------------------------------------------------------------------------

  /** What is kept of a line: its first 2048 bytes. */
  lemma CutMeans(raw: Bytes)
    ensures Cut(raw).prefix == raw[..if |raw| <= 2048 then |raw| else 2048]
    ensures Cut(raw).truncated <==> |raw| > 2048
  {
    assert raw[..|raw|] == raw;
  }

  /** The lines of a log: what is between its newlines, cut, whatever frames it came in. */
  lemma LogLinesMean(frames: seq<Bytes>) returns (raw: seq<Bytes>)
    ensures var lines, all := LinesOf(frames, false), Flatten(frames);
      && |lines| == |raw| && (forall i :: 0 <= i < |raw| ==> lines[i] == Cut(raw[i]) && 10 !in raw[i])
      && Joined(raw) == if all == [] || all[|all| - 1] == 10 then all else all + [10]
  {
    raw := Split(Flatten(frames));
    SplitJoins(Flatten(frames));
  }

  /** The lines of a record are those of a log of this one frame, and records follow each other. */
  lemma RecordLinesMean(frames: seq<Bytes>, frame: Bytes)
    ensures LinesOf([], true) == []
    ensures LinesOf(frames + [frame], true) == LinesOf(frames, true) + LinesOf([frame], false)
  {
    assert (frames + [frame])[..|frames|] == frames;
    FlattenFirst(frame, []);
    assert [frame] + [] == [frame] && frame + [] == frame;
  }

  lemma {:induction false} FramesMean(script: seq<Received>, n: nat)
    requires OnlyFrames(script) && n <= |script|
    ensures |FramesTo(script, n)| == n && forall i :: 0 <= i < n ==> FramesTo(script, n)[i] == script[i].bytes
  {
    if n > 0 { FramesMean(script, n - 1); }
  }
}
