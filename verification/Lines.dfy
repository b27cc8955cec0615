/** Splitting bytes at newlines, as two readers of byte streams rely on it. */
module Lines {
  type Bytes = seq<bv8>

  const NEWLINE: bv8 := 10

  /** The lines of s without their newlines; what follows the last newline is a line unless it is
      empty. */
  function Split(s: Bytes): seq<Bytes>
    decreases |s|
  {
    if s == [] then []
    else
      var end := IndexOf(s, NEWLINE);
      if end == |s| then [s] else [s[..end]] + Split(s[end + 1..])
  }

  function IndexOf(s: Bytes, b: bv8): (i: nat)
    ensures i <= |s| && b !in s[..i] && (i < |s| ==> s[i] == b)
  {
    if s == [] then 0 else if s[0] == b then 0
    else
      var i := 1 + IndexOf(s[1..], b);
      assert s[..i] == [s[0]] + s[1..][..i - 1];
      i
  }

  /** bytes.IndexByte, with the length of s for "not there". */
  method FindByte(s: Bytes, b: bv8) returns (i: nat)
    ensures i <= |s| && b !in s[..i] && (i < |s| ==> s[i] == b)
  {
    i := 0;
    while i < |s| && s[i] != b
      invariant i <= |s| && b !in s[..i]
    {
      assert s[..i + 1] == s[..i] + [s[i]];
      i := i + 1;
    }
  }

  function Joined(lines: seq<Bytes>): Bytes {
    if lines == [] then [] else lines[0] + [NEWLINE] + Joined(lines[1..])
  }

  lemma {:induction false} IndexAt(s: Bytes, b: bv8, k: nat)
    requires k < |s| && s[k] == b && b !in s[..k]
    ensures IndexOf(s, b) == k
  {
  }

  lemma SplitFirst(line: Bytes, rest: Bytes)
    requires NEWLINE !in line
    ensures Split(line + [NEWLINE] + rest) == [line] + Split(rest)
  {
    var s := line + [NEWLINE] + rest;
    assert s[..|line|] == line;
    IndexAt(s, NEWLINE, |line|);
    var end := |line|;
    assert s[..end] == line && s[end + 1..] == rest;
  }

  lemma SplitLast(line: Bytes)
    requires NEWLINE !in line
    ensures Split(line) == if line == [] then [] else [line]
  {
  }

  lemma JoinedFirst(line: Bytes, lines: seq<Bytes>)
    ensures Joined([line] + lines) == line + [NEWLINE] + Joined(lines)
  {
  }

  /** What splitting means: no line contains a newline, and ending every line with one gives the
      bytes again, but for a last newline that may have been missing. */
  lemma {:induction false} SplitJoins(s: Bytes)
    ensures forall i :: 0 <= i < |Split(s)| ==> NEWLINE !in Split(s)[i]
    ensures Joined(Split(s)) == if s == [] || s[|s| - 1] == NEWLINE then s else s + [NEWLINE]
    decreases |s|
  {
    var end := IndexOf(s, NEWLINE);
    if end == |s| {
      SplitLast(s);
      if s != [] { JoinedFirst(s, []); }
      assert [s] + [] == [s] && s[..end] == s;
    } else {
      var line, rest := s[..end], s[end + 1..];
      assert s == line + [NEWLINE] + rest;
      SplitFirst(line, rest);
      SplitJoins(rest);
      JoinedFirst(line, Split(rest));
    }
  }

  // ---- The same, one byte after the other ---------------------------------------------------

  /** The lines of s that a newline has ended. */
  function Ended(s: Bytes): seq<Bytes> {
    if s == [] then []
    else if s[|s| - 1] == NEWLINE then Ended(s[..|s| - 1]) + [Pending(s[..|s| - 1])]
    else Ended(s[..|s| - 1])
  }

  /** What follows the last newline. */
  function Pending(s: Bytes): Bytes {
    if s == [] || s[|s| - 1] == NEWLINE then [] else Pending(s[..|s| - 1]) + [s[|s| - 1]]
  }

  function EndedAndRest(s: Bytes): seq<Bytes> {
    Ended(s) + if Pending(s) == [] then [] else [Pending(s)]
  }

  /** Reading on up to a newline. */
  lemma {:induction false} PendingGrows(s: Bytes, more: Bytes)
    requires NEWLINE !in more
    ensures Pending(s + more) == Pending(s) + more && Ended(s + more) == Ended(s)
  {
    if more == [] {
      assert s + more == s;
    } else {
      var last := |more| - 1;
      PendingGrows(s, more[..last]);
      assert (s + more)[..|s + more| - 1] == s + more[..last] && (s + more)[|s + more| - 1] == more[last];
      assert more == more[..last] + [more[last]];
    }
  }

  lemma LineEnds(s: Bytes)
    ensures Pending(s + [NEWLINE]) == [] && Ended(s + [NEWLINE]) == Ended(s) + [Pending(s)]
  {
  }

  /** Bytes after a newline are split on their own. */
  lemma {:induction false} AfterNewline(s: Bytes, more: Bytes)
    ensures Ended(s + [NEWLINE] + more) == Ended(s + [NEWLINE]) + Ended(more) &&
      Pending(s + [NEWLINE] + more) == Pending(more)
  {
    var start := s + [NEWLINE];
    if more == [] {
      assert start + more == start;
      LineEnds(s);
    } else {
      AfterNewline(s, more[..|more| - 1]);
      assert (start + more)[..|start + more| - 1] == start + more[..|more| - 1];
    }
  }

  lemma FirstLine(line: Bytes, rest: Bytes)
    requires NEWLINE !in line
    ensures Ended(line + [NEWLINE] + rest) == [line] + Ended(rest) && Pending(line + [NEWLINE] + rest) == Pending(rest)
  {
    PendingGrows([], line);
    assert [] + line == line;
    LineEnds(line);
    AfterNewline(line, rest);
  }

  /** Splitting at the first newline or following the bytes to the last one is the same. */
  lemma {:induction false} SplitIsEndedAndRest(s: Bytes)
    ensures Split(s) == EndedAndRest(s)
    decreases |s|
  {
    var end := IndexOf(s, NEWLINE);
    if end == |s| {
      assert [] + s == s == s[..end];
      SplitLast(s);
      PendingGrows([], s);
    } else {
      var line, rest := s[..end], s[end + 1..];
      assert s == line + [NEWLINE] + rest;
      SplitFirst(line, rest);
      FirstLine(line, rest);
      SplitIsEndedAndRest(rest);
      assert EndedAndRest(s) == [line] + EndedAndRest(rest);
    }
  }

  function Flatten(frames: seq<Bytes>): Bytes {
    if frames == [] then [] else Flatten(frames[..|frames| - 1]) + frames[|frames| - 1]
  }

  lemma {:induction false} FlattenFirst(frame: Bytes, frames: seq<Bytes>)
    ensures Flatten([]) == [] && Flatten([frame] + frames) == frame + Flatten(frames)
  {
    var all := [frame] + frames;
    if frames == [] {
      assert all[..0] == [] && all == [frame];
    } else {
      FlattenFirst(frame, frames[..|frames| - 1]);
      assert all[..|all| - 1] == [frame] + frames[..|frames| - 1];
    }
  }
}
