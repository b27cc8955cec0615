/** consumeUpgradeOutput (internal/adapters/talos/kubernetes_upgrade_process.go): the lines of the
    upgrade command's output, read through a small buffer, without those that are too long. */
module UpgradeOutput {
  import opened Sequences
  import opened Lines

  const MAX_LINE := 64 * 1024

  /** What ReadSlice('\n') answers: up to and with a newline, a full buffer without one, or what was
      left when the input ended or failed. */
  datatype Slice =
    | ToNewline(line: Bytes)
    | BufferFull(bytes: Bytes)
    | AtEnd(bytes: Bytes)
    | Failed(bytes: Bytes)

  function BytesOf(s: Slice): Bytes { if s.ToNewline? then s.line + [NEWLINE] else s.bytes }

  /** The contract of ReadSlice. */
  predicate Sliced(s: Slice) { if s.ToNewline? then NEWLINE !in s.line else NEWLINE !in s.bytes }

  function Input(slices: seq<Slice>): Bytes { Flatten(Map(BytesOf, slices)) }

  predicate Short(line: Bytes) { |line| <= MAX_LINE }

  function WithNewline(line: Bytes): Bytes { line + [NEWLINE] }

  /** The lines, newline included, that fit. */
  function Complete(input: Bytes): seq<Bytes> { Filter(Short, Map(WithNewline, Ended(input))) }

  /** And the unfinished one, if the input ended well. */
  function Emitted(input: Bytes, ended: bool): seq<Bytes> {
    Complete(input) + if ended && Pending(input) != [] && Short(Pending(input)) then [Pending(input)] else []
  }

  lemma InputGrows(slices: seq<Slice>, i: nat)
    requires i < |slices|
    ensures Input(slices[..i + 1]) == Input(slices[..i]) + BytesOf(slices[i])
  {
    var m := Map(BytesOf, slices[..i + 1]);
    assert m[..i] == Map(BytesOf, slices[..i]) && m[i] == BytesOf(slices[i]);
  }

  lemma ShortSnoc(lines: seq<Bytes>, line: Bytes)
    ensures Filter(Short, Map(WithNewline, lines + [line])) ==
      Filter(Short, Map(WithNewline, lines)) + if Short(WithNewline(line)) then [WithNewline(line)] else []
  {
    var whole := Map(WithNewline, lines);
    assert Map(WithNewline, lines + [line]) == whole + [WithNewline(line)];
    assert (whole + [WithNewline(line)])[..|whole|] == whole;
  }

  lemma LineEmits(input: Bytes, line: Bytes)
    requires NEWLINE !in line
    ensures var more, whole := input + WithNewline(line), Pending(input) + WithNewline(line);
      Pending(more) == [] && Complete(more) == Complete(input) + if Short(whole) then [whole] else []
  {
    PendingGrows(input, line);
    LineEnds(input + line);
    assert input + WithNewline(line) == input + line + [NEWLINE];
    assert WithNewline(Pending(input) + line) == Pending(input) + WithNewline(line);
    ShortSnoc(Ended(input), Pending(input) + line);
  }

  /** What one more slice of the input does to the lines that are complete. */
  lemma SliceEmits(input: Bytes, s: Slice)
    requires Sliced(s)
    ensures var more, whole := input + BytesOf(s), Pending(input) + BytesOf(s);
      && Pending(more) == (if s.ToNewline? then [] else whole)
      && Complete(more) == Complete(input) + if s.ToNewline? && Short(whole) then [whole] else []
  {
    if s.ToNewline? {
      LineEmits(input, s.line);
    } else {
      PendingGrows(input, s.bytes);
    }
  }

  /** The line so far, or that it is too long already. */
  ghost predicate Held(line: Bytes, discard: bool, pending: Bytes) {
    (discard <==> !Short(pending)) && line == if discard then [] else pending
  }

  method Hold(line: Bytes, discard: bool, part: Bytes, ghost pending: Bytes) returns (line': Bytes, discard': bool)
    requires Held(line, discard, pending)
    ensures Held(line', discard', pending + part)
  {
    line', discard' := line, discard;
    if !discard {
      if |line| + |part| > MAX_LINE {
        line' := [];
        discard' := true;
      } else {
        line' := line + part;
      }
    }
  }

  /** One round of the loop. */
  method Consume(s: Slice, line: Bytes, discard: bool, emitted: seq<Bytes>, ghost input: Bytes)
    returns (line': Bytes, discard': bool, emitted': seq<Bytes>)
    requires Sliced(s) && emitted == Complete(input) && Held(line, discard, Pending(input))
    ensures emitted' == Complete(input + BytesOf(s)) && Held(line', discard', Pending(input + BytesOf(s)))
  {
    SliceEmits(input, s);
    line', discard' := Hold(line, discard, BytesOf(s), Pending(input));
    emitted' := emitted;
    if s.ToNewline? {
      if !discard' { emitted' := emitted + [line']; }
      line', discard' := [], false;
    }
  }

  /** What ReadSlice splits the input into, and where its buffer is full, makes no difference. */
  method ConsumeUpgradeOutput(slices: seq<Slice>) returns (emitted: seq<Bytes>)
    requires slices != [] && (forall i :: 0 <= i < |slices| ==> Sliced(slices[i]))
    requires forall i :: 0 <= i < |slices| ==> (slices[i].AtEnd? || slices[i].Failed? <==> i == |slices| - 1)
    ensures emitted == Emitted(Input(slices), slices[|slices| - 1].AtEnd?)
  {
    emitted := [];
    var line: Bytes, discard := [], false;
    for i := 0 to |slices|
      invariant emitted == Complete(Input(slices[..i])) && Held(line, discard, Pending(Input(slices[..i])))
    {
      InputGrows(slices, i);
      line, discard, emitted := Consume(slices[i], line, discard, emitted, Input(slices[..i]));
    }
    assert slices[..|slices|] == slices;
    if slices[|slices| - 1].AtEnd? && !discard && |line| > 0 { emitted := emitted + [line]; }
  }

  // ---- Over the bytes ------------------------------------------------------------------------------

  /** A line is emitted with its newline if both take no more than 64 KiB, and then the rest is read. */
  lemma EmittedFirst(line: Bytes, rest: Bytes, ended: bool)
    requires 10 !in line
    ensures Emitted(line + [10] + rest, ended) ==
      (if |line| < 65536 then [line + [10]] else []) + Emitted(rest, ended)
  {
    FirstLine(line, rest);
    var whole, more := [WithNewline(line)], Map(WithNewline, Ended(rest));
    assert Map(WithNewline, [line] + Ended(rest)) == whole + more;
    FilterConcat(Short, whole, more);
    assert whole[..0] == [];
  }

  /** An unfinished last line is emitted if it fits and the input did not fail. */
  lemma EmittedLast(line: Bytes, ended: bool)
    requires 10 !in line
    ensures Emitted(line, ended) == if ended && line != [] && |line| <= 65536 then [line] else []
  {
    PendingGrows([], line);
    assert [] + line == line;
  }
}
