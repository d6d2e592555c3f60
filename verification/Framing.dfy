/**
 Newline framing of the share journal.  The two line readers pull arbitrary chunks
 out of a buffered stream; what they return depends only on the flat bytes.
 */
module Framing {
  import opened Common

  const NEWLINE: byte := 10
  const MAX_JOURNAL_RECORD_BYTES: nat := 10 * 1024 * 1024

  /* ----- the flat meaning of a stream ----- */

  /** The bytes that a sequence of chunks holds. */
  function Flatten(chunks: seq<seq<byte>>): seq<byte> {
    if chunks == [] then [] else chunks[0] + Flatten(chunks[1..])
  }

  /** Index of the first newline, or the length when there is none. */
  function FindNewline(s: seq<byte>): (p: nat)
    ensures p <= |s|
  {
    if s == [] || s[0] == NEWLINE then 0 else 1 + FindNewline(s[1..])
  }

  /** One line handed to a caller: its text, whether a newline ended it, and the bytes it used. */
  datatype Line = Line(text: seq<byte>, terminated: bool, consumed: nat)

  /** What one bounded read returns on the flat stream `s`. */
  function NextLine(s: seq<byte>): Result<Option<Line>> {
    var p := FindNewline(s);
    if s == [] then Ok(None)
    else if p > MAX_JOURNAL_RECORD_BYTES then Err
    else if p < |s| then Ok(Some(Line(s[..p], true, p + 1)))
    else Ok(Some(Line(s, false, p)))
  }

  /** All terminated lines of a stream, and the unterminated tail behind them. */
  datatype Frames = Frames(lines: seq<seq<byte>>, tail: seq<byte>)

  function Split(s: seq<byte>): Frames
    decreases |s|
  {
    var p := FindNewline(s);
    if p == |s| then Frames([], s)
    else
      var rest := Split(s[p + 1..]);
      Frames([s[..p]] + rest.lines, rest.tail)
  }

  /** Newline-terminated lines written one after the other. */
  function Join(lines: seq<seq<byte>>): seq<byte> {
    if lines == [] then [] else lines[0] + [NEWLINE] + Join(lines[1..])
  }

  predicate NewlineFree(lines: seq<seq<byte>>) {
    forall i :: 0 <= i < |lines| ==> NEWLINE !in lines[i]
  }

  /** No line and no tail is over the record bound. */
  predicate Bounded(f: Frames) {
    && (forall i :: 0 <= i < |f.lines| ==> |f.lines[i]| <= MAX_JOURNAL_RECORD_BYTES)
    && |f.tail| <= MAX_JOURNAL_RECORD_BYTES
  }

  /* ----- laws of the flat meaning ----- */

  lemma {:induction false} FindNewlineFirst(s: seq<byte>)
    ensures NEWLINE !in s[..FindNewline(s)]
    ensures FindNewline(s) < |s| ==> s[FindNewline(s)] == NEWLINE
  {
    if s != [] && s[0] != NEWLINE {
      FindNewlineFirst(s[1..]);
      assert s[..FindNewline(s)] == [s[0]] + s[1..][..FindNewline(s[1..])];
    }
  }

  lemma {:induction false} FindNewlineAfter(a: seq<byte>, b: seq<byte>)
    requires NEWLINE !in a
    ensures FindNewline(a + b) == |a| + FindNewline(b)
  {
    if a == [] {
      assert a + b == b;
    } else {
      assert (a + b)[1..] == a[1..] + b;
      assert NEWLINE !in a[1..];
      FindNewlineAfter(a[1..], b);
    }
  }

  /** A newline-free line in front of the stream is split off unchanged. */
  lemma {:induction false} SplitLine(line: seq<byte>, rest: seq<byte>)
    requires NEWLINE !in line
    ensures Split(line + [NEWLINE] + rest) == Frames([line] + Split(rest).lines, Split(rest).tail)
  {
    var s := line + [NEWLINE] + rest;
    assert s == line + ([NEWLINE] + rest);
    FindNewlineAfter(line, [NEWLINE] + rest);
    assert s[..|line|] == line && s[|line| + 1..] == rest;
  }

  lemma {:induction false} SplitTail(tail: seq<byte>)
    requires NEWLINE !in tail
    ensures Split(tail) == Frames([], tail)
  {
    FindNewlineAfter(tail, []);
    assert tail + [] == tail;
  }

  lemma {:induction false} LineThenRest(line: seq<byte>, a: seq<byte>, b: seq<byte>)
    ensures (line + [NEWLINE] + a) + b == line + [NEWLINE] + (a + b)
  {
  }

  /** Reading back: splitting what was written line by line returns the same lines and tail. */
  lemma {:induction false} SplitJoin(lines: seq<seq<byte>>, tail: seq<byte>)
    requires NewlineFree(lines) && NEWLINE !in tail
    ensures Split(Join(lines) + tail) == Frames(lines, tail)
  {
    if lines == [] {
      SplitTail(tail);
      assert Join(lines) + tail == tail;
    } else {
      SplitJoin(lines[1..], tail);
      LineThenRest(lines[0], Join(lines[1..]), tail);
      SplitLine(lines[0], Join(lines[1..]) + tail);
      assert [lines[0]] + lines[1..] == lines;
    }
  }

  lemma {:induction false} JoinCons(line: seq<byte>, lines: seq<seq<byte>>)
    ensures Join([line] + lines) == line + [NEWLINE] + Join(lines)
  {
    assert ([line] + lines)[1..] == lines;
  }

  lemma {:induction false} CutAt(s: seq<byte>, p: nat)
    requires p < |s| && s[p] == NEWLINE
    ensures s[..p] + [NEWLINE] + s[p + 1..] == s
  {
  }

  /** The other direction: a stream is exactly its terminated lines followed by its tail. */
  lemma {:induction false} JoinSplit(s: seq<byte>)
    ensures Join(Split(s).lines) + Split(s).tail == s
    ensures NewlineFree(Split(s).lines) && NEWLINE !in Split(s).tail
    decreases |s|
  {
    var p := FindNewline(s);
    if p == |s| {
      FindNewlineFirst(s);
      assert s[..p] == s;
    } else {
      var rest := Split(s[p + 1..]);
      FindNewlineFirst(s);
      JoinSplit(s[p + 1..]);
      JoinCons(s[..p], rest.lines);
      LineThenRest(s[..p], Join(rest.lines), rest.tail);
      CutAt(s, p);
    }
  }

  lemma {:induction false} JoinAppend(a: seq<seq<byte>>, b: seq<seq<byte>>)
    ensures Join(a + b) == Join(a) + Join(b)
  {
    if a == [] {
      assert a + b == b;
    } else {
      assert (a + b)[1..] == a[1..] + b;
      JoinAppend(a[1..], b);
    }
  }

  /** Bytes behind the last newline change no terminated line. */
  lemma {:induction false} SplitTerminatedPrefix(s: seq<byte>)
    ensures |Join(Split(s).lines)| <= |s|
    ensures s[..|Join(Split(s).lines)|] == Join(Split(s).lines)
    ensures Split(s[..|Join(Split(s).lines)|]) == Frames(Split(s).lines, [])
  {
    JoinSplit(s);
    SplitJoin(Split(s).lines, []);
    assert Join(Split(s).lines) + [] == Join(Split(s).lines);
  }

  /** Reading line after line to the end of `s` never hits the record bound. */
  predicate Readable(s: seq<byte>)
    decreases |s|
  {
    && NextLine(s).Ok?
    && (FindNewline(s) < |s| ==> Readable(s[FindNewline(s) + 1..]))
  }

  /** Readers fail if and only if some line or the tail is over the bound. */
  lemma {:induction false} ReadableIffBounded(s: seq<byte>)
    ensures Readable(s) <==> Bounded(Split(s))
    decreases |s|
  {
    var p := FindNewline(s);
    if p < |s| {
      ReadableIffBounded(s[p + 1..]);
      BoundedCons(s[..p], Split(s[p + 1..]));
    }
  }

  lemma {:induction false} BoundedCons(line: seq<byte>, f: Frames)
    ensures Bounded(Frames([line] + f.lines, f.tail)) <==>
            |line| <= MAX_JOURNAL_RECORD_BYTES && Bounded(f)
  {
    var lines := [line] + f.lines;
    if Bounded(Frames(lines, f.tail)) {
      assert |lines[0]| <= MAX_JOURNAL_RECORD_BYTES;
      forall i | 0 <= i < |f.lines| ensures |f.lines[i]| <= MAX_JOURNAL_RECORD_BYTES {
        assert f.lines[i] == lines[i + 1];
      }
    }
  }

  /* ----- the buffered reader and the two line readers ----- */

  /** A buffered stream: `chunks` are the pieces that successive refills will deliver. */
  class ByteReader {
    var chunks: seq<seq<byte>>

    constructor (pieces: seq<seq<byte>>)
      requires forall i :: 0 <= i < |pieces| ==> pieces[i] != []
      ensures Valid() && Rest() == Flatten(pieces)
    {
      chunks := pieces;
    }

    ghost predicate Valid()
      reads this
    {
      forall i :: 0 <= i < |chunks| ==> chunks[i] != []
    }

    function Rest(): seq<byte>
      reads this
    {
      Flatten(chunks)
    }

    /** The bytes now buffered; empty only at the end of the stream. */
    method FillBuf() returns (available: seq<byte>)
      requires Valid()
      ensures available == [] <==> Rest() == []
      ensures available <= Rest()
      ensures chunks == [] ==> available == []
      ensures chunks != [] ==> available == chunks[0]
    {
      if chunks == [] { return []; }
      assert Flatten(chunks) == chunks[0] + Flatten(chunks[1..]);
      available := chunks[0];
    }

    method Consume(n: nat)
      requires Valid()
      requires chunks == [] ==> n == 0
      requires chunks != [] ==> n <= |chunks[0]|
      modifies this
      ensures Valid()
      ensures n <= |old(Rest())| && Rest() == old(Rest())[n..]
    {
      if chunks != [] {
        ghost var before := chunks;
        assert Flatten(chunks) == chunks[0] + Flatten(chunks[1..]);
        if n == |chunks[0]| {
          chunks := chunks[1..];
        } else {
          chunks := [chunks[0][n..]] + chunks[1..];
          assert chunks[1..] == before[1..];
        }
      }
    }
  }

  /* What a reader has collected decides the answer, wherever the chunk borders fell. */

  lemma {:induction false} NextLineTerminated(line: seq<byte>, rest: seq<byte>)
    requires NEWLINE !in line && |line| <= MAX_JOURNAL_RECORD_BYTES
    ensures NextLine(line + [NEWLINE] + rest) == Ok(Some(Line(line, true, |line| + 1)))
    ensures (line + [NEWLINE] + rest)[|line| + 1..] == rest
  {
    var s := line + [NEWLINE] + rest;
    assert s == line + ([NEWLINE] + rest);
    FindNewlineAfter(line, [NEWLINE] + rest);
    assert s[..|line|] == line;
  }

  lemma {:induction false} NextLineTail(line: seq<byte>)
    requires NEWLINE !in line && |line| <= MAX_JOURNAL_RECORD_BYTES
    ensures NextLine(line) == if line == [] then Ok(None) else Ok(Some(Line(line, false, |line|)))
  {
    FindNewlineAfter(line, []);
    assert line + [] == line;
  }

  lemma {:induction false} NextLineTooLong(line: seq<byte>, rest: seq<byte>)
    requires NEWLINE !in line && |line| > MAX_JOURNAL_RECORD_BYTES
    ensures NextLine(line + rest).Err?
  {
    FindNewlineAfter(line, rest);
  }

  /** Taking the bytes before a newline out of the buffered chunk. */
  lemma {:induction false} TakeChunk(line: seq<byte>, available: seq<byte>, rest: seq<byte>, n: nat)
    requires available <= rest && n <= |available|
    requires NEWLINE !in line && NEWLINE !in available[..n]
    ensures NEWLINE !in line + available[..n]
    ensures line + rest == (line + available[..n]) + rest[n..]
    ensures n < |available| && available[n] == NEWLINE ==>
              line + rest == (line + available[..n]) + [NEWLINE] + rest[n + 1..]
  {
  }

  /** The coordinator's reader. */
  method ReadBoundedJournalLine(reader: ByteReader) returns (r: Result<Option<Line>>)
    requires reader.Valid()
    modifies reader
    ensures reader.Valid()
    ensures r == NextLine(old(reader.Rest()))
    ensures r.Ok? && r.value.None? ==> reader.Rest() == [] == old(reader.Rest())
    ensures r.Ok? && r.value.Some? ==>
              && r.value.value.consumed <= |old(reader.Rest())|
              && reader.Rest() == old(reader.Rest())[r.value.value.consumed..]
  {
    var line: seq<byte> := [];
    ghost var whole := reader.Rest();
    while true
      invariant reader.Valid()
      invariant whole == line + reader.Rest()
      invariant NEWLINE !in line && |line| <= MAX_JOURNAL_RECORD_BYTES
      decreases |reader.Rest()|
    {
      var available := reader.FillBuf();
      if available == [] {
        assert whole == line;
        NextLineTail(line);
        if line == [] { return Ok(None); }
        return Ok(Some(Line(line, false, |line|)));
      }
      var chunkLen := FindNewline(available);
      var terminated := chunkLen < |available|;
      ghost var collected, rest := line + available[..chunkLen], reader.Rest()[chunkLen..];
      FindNewlineFirst(available);
      TakeChunk(line, available, reader.Rest(), chunkLen);
      if |line| + chunkLen > MAX_JOURNAL_RECORD_BYTES {
        NextLineTooLong(collected, rest);
        return Err;
      }
      line := line + available[..chunkLen];
      reader.Consume(chunkLen + if terminated then 1 else 0);
      if terminated {
        NextLineTerminated(line, reader.Rest());
        return Ok(Some(Line(line, true, |line| + 1)));
      }
    }
  }

  /** The accounting reader: the same line, without the byte count. */
  method ReadBoundedLine(reader: ByteReader) returns (r: Result<Option<(seq<byte>, bool)>>)
    requires reader.Valid()
    modifies reader
    ensures reader.Valid()
    ensures NextLine(old(reader.Rest())).Err? <==> r.Err?
    ensures r.Ok? ==> (r.value.None? <==> NextLine(old(reader.Rest())).value.None?)
    ensures r.Ok? && r.value.Some? ==>
              var n := NextLine(old(reader.Rest())).value.value;
              && r.value.value == (n.text, n.terminated)
              && n.consumed <= |old(reader.Rest())|
              && reader.Rest() == old(reader.Rest())[n.consumed..]
  {
    var line: seq<byte> := [];
    ghost var whole := reader.Rest();
    while true
      invariant reader.Valid()
      invariant whole == line + reader.Rest()
      invariant NEWLINE !in line && |line| <= MAX_JOURNAL_RECORD_BYTES
      decreases |reader.Rest()|
    {
      var available := reader.FillBuf();
      if available == [] {
        assert whole == line;
        NextLineTail(line);
        if line == [] { return Ok(None); }
        return Ok(Some((line, false)));
      }
      var chunkLen := FindNewline(available);
      var terminated := chunkLen < |available|;
      ghost var collected, rest := line + available[..chunkLen], reader.Rest()[chunkLen..];
      FindNewlineFirst(available);
      TakeChunk(line, available, reader.Rest(), chunkLen);
      if |line| + chunkLen > MAX_JOURNAL_RECORD_BYTES {
        NextLineTooLong(collected, rest);
        return Err;
      }
      available := reader.FillBuf();
      line := line + available[..chunkLen];
      reader.Consume(chunkLen + if terminated then 1 else 0);
      if terminated {
        NextLineTerminated(line, reader.Rest());
        return Ok(Some((line, true)));
      }
    }
  }
}
