/**
 Reading a journal line by line and folding its records into a state.  The loops of both
 interpreters have this shape; here it is tied to the records of the whole stream.
 */
module JournalReader {
  import opened Common
  import opened Framing
  import opened JournalRecord
  import opened JournalModel

  type Decoder = seq<byte> -> Option<Record>
  type Stepper<!S> = (S, Record) -> Result<S>

  /** The state after `rs`, read in order from the state `s`. */
  function FoldFrom<S>(step: Stepper<S>, s: S, rs: seq<Record>): Result<S> {
    if rs == [] then Ok(s)
    else
      var before :- FoldFrom(step, s, rs[..|rs| - 1]);
      step(before, rs[|rs| - 1])
  }

  lemma {:induction false} FoldFirst<S>(step: Stepper<S>, s: S, r: Record, rs: seq<Record>)
    ensures FoldFrom(step, s, [r] + rs)
         == match step(s, r) case Err => Err case Ok(s') => FoldFrom(step, s', rs)
  {
    var all := [r] + rs;
    if rs == [] {
      assert all[..0] == [] && all == [r];
    } else {
      var n := |rs| - 1;
      assert all[..|all| - 1] == [r] + rs[..n] && all[|all| - 1] == rs[n];
      FoldFirst(step, s, r, rs[..n]);
    }
  }

  lemma {:induction false} DecodeFirst(decode: Decoder, line: seq<byte>, lines: seq<seq<byte>>)
    ensures DecodeAll(decode, [line] + lines)
         == match (decode(line), DecodeAll(decode, lines)) case (Some(r), Some(rs)) => Some([r] + rs) case _ => None
  {
    var all := [line] + lines;
    if lines == [] {
      assert all[..0] == [] && all == [line];
      assert forall r: Record :: [] + [r] == [r] + [];
    } else {
      var n := |lines| - 1;
      assert all[..|all| - 1] == [line] + lines[..n] && all[|all| - 1] == lines[n];
      DecodeFirst(decode, line, lines[..n]);
      if decode(line).Some? && DecodeAll(decode, lines).Some? {
        var rs := DecodeAll(decode, lines[..n]).value;
        assert [decode(line).value] + (rs + [decode(lines[n]).value])
            == ([decode(line).value] + rs) + [decode(lines[n]).value];
      }
    }
  }

  /** What a reading loop that has reached the state `s` returns on the remaining bytes. */
  function ReadFold<S>(decode: Decoder, step: Stepper<S>, s: S, bytes: seq<byte>): Result<S>
    decreases |bytes|
  {
    var next :- NextLine(bytes);
    if next.None? || !next.value.terminated then Ok(s)
    else
      match decode(next.value.text)
      case None => Err
      case Some(r) =>
        var s' :- step(s, r);
        ReadFold(decode, step, s', bytes[next.value.consumed..])
  }

  /** The fold over the records of a whole stream: every line readable, every terminated line a record. */
  function FoldStream<S>(decode: Decoder, step: Stepper<S>, s: S, bytes: seq<byte>): Result<S> {
    if !Readable(bytes) then Err
    else
      match DecodeAll(decode, Split(bytes).lines)
      case None => Err
      case Some(rs) => FoldFrom(step, s, rs)
  }

  lemma {:induction false} FoldStreamLine<S>(decode: Decoder, step: Stepper<S>, s: S, line: seq<byte>, rest: seq<byte>)
    requires NEWLINE !in line && |line| <= MAX_JOURNAL_RECORD_BYTES
    ensures FoldStream(decode, step, s, line + [NEWLINE] + rest)
         == match decode(line)
            case None => Err
            case Some(r) => match step(s, r) case Err => Err case Ok(s') => FoldStream(decode, step, s', rest)
  {
    var bytes := line + [NEWLINE] + rest;
    NextLineTerminated(line, rest);
    SplitLine(line, rest);
    assert Readable(bytes) <==> Readable(rest);
    DecodeFirst(decode, line, Split(rest).lines);
    if decode(line).Some? && DecodeAll(decode, Split(rest).lines).Some? {
      FoldFirst(step, s, decode(line).value, DecodeAll(decode, Split(rest).lines).value);
    }
  }

  /** A reading loop computes the fold over the records of its stream. */
  lemma {:induction false} ReadFoldIsFoldStream<S>(decode: Decoder, step: Stepper<S>, s: S, bytes: seq<byte>)
    ensures ReadFold(decode, step, s, bytes) == FoldStream(decode, step, s, bytes)
    decreases |bytes|
  {
    var p := FindNewline(bytes);
    if NextLine(bytes).Ok? && p < |bytes| {
      var line, rest := bytes[..p], bytes[p + 1..];
      FindNewlineFirst(bytes);
      CutAt(bytes, p);
      FoldStreamLine(decode, step, s, line, rest);
      if decode(line).Some? && step(s, decode(line).value).Ok? {
        ReadFoldIsFoldStream(decode, step, step(s, decode(line).value).value, rest);
      }
    }
  }

  /** One terminated line moves its bytes into the complete part of a stream. */
  lemma {:induction false} TerminatedBytes(bytes: seq<byte>)
    requires FindNewline(bytes) < |bytes|
    ensures |Join(Split(bytes).lines)|
         == FindNewline(bytes) + 1 + |Join(Split(bytes[FindNewline(bytes) + 1..]).lines)|
  {
    JoinCons(bytes[..FindNewline(bytes)], Split(bytes[FindNewline(bytes) + 1..]).lines);
  }
}
