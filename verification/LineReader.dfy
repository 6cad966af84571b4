/** Newline-terminated JSON from a pipe that delivers bytes in arbitrary chunks. */
module LineReader {
  import opened Wrappers
  import opened Protocol
  import opened Framing

  const NEWLINE: byte := 10

  /** Where the first newline is. */
  function NewlineAt(bytes: seq<byte>): (at: Option<nat>)
    ensures at.Some? ==> at.value < |bytes| && bytes[at.value] == NEWLINE && NEWLINE !in bytes[..at.value]
    ensures at.None? ==> NEWLINE !in bytes
  {
    if bytes == [] then None
    else if bytes[0] == NEWLINE then Some(0)
    else
      match NewlineAt(bytes[1..])
      case None => None
      case Some(at) =>
        assert bytes[..at + 1] == [bytes[0]] + bytes[1..][..at];
        Some(at + 1)
  }

  datatype Line = End | Truncated | TooLong | Text(line: seq<byte>)

  /** The next line of a stream that ends after `bytes`. */
  function NextLine(bytes: seq<byte>): Line {
    match NewlineAt(bytes)
    case Some(at) => if at + 1 > MAX_FRAME_BYTES then TooLong else Text(bytes[..at + 1])
    case None => if bytes == [] then End else if |bytes| > MAX_FRAME_BYTES then TooLong else Truncated
  }

  /** Every line up to the end of the stream or the first error. */
  function Lines(bytes: seq<byte>): (seq<seq<byte>>, Line)
    decreases |bytes|
  {
    match NextLine(bytes)
    case Text(line) =>
      var (rest, last) := Lines(bytes[|line|..]);
      ([line] + rest, last)
    case other => ([], other)
  }

  /** Bytes without a newline only move the first newline further out. */
  lemma {:induction false} SkipClean(seen: seq<byte>, rest: seq<byte>)
    requires NEWLINE !in seen
    ensures NewlineAt(seen + rest) ==
            (match NewlineAt(rest) case None => None case Some(at) => Some(|seen| + at))
  {
    if seen == [] {
      assert seen + rest == rest;
    } else {
      assert (seen + rest)[1..] == seen[1..] + rest;
      SkipClean(seen[1..], rest);
    }
  }

  /** Bytes after a newline do not move it. */
  lemma {:induction false} FirstStays(bytes: seq<byte>, rest: seq<byte>)
    requires NewlineAt(bytes).Some?
    ensures NewlineAt(bytes + rest) == NewlineAt(bytes)
  {
    if bytes[0] != NEWLINE {
      assert (bytes + rest)[1..] == bytes[1..] + rest;
      FirstStays(bytes[1..], rest);
    }
  }

  /** What one delivered chunk decides about the line that `seen` started. */
  lemma ChunkDecides(seen: seq<byte>, chunk: seq<byte>, rest: seq<byte>)
    requires NEWLINE !in seen && chunk != []
    ensures NewlineAt(chunk).Some? ==>
              NewlineAt(seen + chunk + rest) == Some(|seen| + NewlineAt(chunk).value)
    ensures NewlineAt(chunk).None? && |seen| + |chunk| > MAX_FRAME_BYTES ==>
              NextLine(seen + chunk + rest) == TooLong
  {
    if NewlineAt(chunk).Some? {
      FirstStays(chunk, rest);
      SkipClean(seen, chunk + rest);
      assert seen + chunk + rest == seen + (chunk + rest);
    } else {
      SkipClean(seen + chunk, rest);
    }
  }

  /** Moving the first `take` bytes of a chunk from the pipe to the line loses nothing. */
  lemma TakeOver(all: seq<byte>, line: seq<byte>, buf: seq<byte>, before: seq<byte>, take: nat)
    requires all == line + before && buf <= before && take <= |buf|
    ensures all == (line + buf[..take]) + before[take..]
    ensures all[..|line| + take] == line + buf[..take] && all[|line| + take..] == before[take..]
    ensures NewlineAt(buf).None? && take == |buf| && NEWLINE !in line ==> NEWLINE !in line + buf[..take]
  {
    assert before == buf[..take] + before[take..];
  }

  class Pipe {
    /** What is still to be read; the head is what one read delivers. */
    var chunks: seq<seq<byte>>

    predicate Valid()
      reads this
    {
      forall i :: 0 <= i < |chunks| ==> chunks[i] != []
    }

    constructor (chunks: seq<seq<byte>>)
      requires forall i :: 0 <= i < |chunks| ==> chunks[i] != []
      ensures Valid() && this.chunks == chunks
    {
      this.chunks := chunks;
    }

    method Consume(n: nat)
      requires Valid() && chunks != [] && n <= |chunks[0]|
      modifies this
      ensures Valid() && Flatten(chunks) == Flatten(old(chunks))[n..]
      ensures n == |old(chunks)[0]| ==> chunks == old(chunks)[1..]
    {
      var head := chunks[0];
      if n == |head| {
        chunks := chunks[1..];
      } else {
        chunks := [head[n..]] + chunks[1..];
        assert chunks[1..] == old(chunks)[1..];
        assert head + Flatten(chunks[1..]) == head[..n] + (head[n..] + Flatten(chunks[1..]));
      }
    }

    /**
     The next line. The answer, the limit on its length included, depends on the bytes only and not
     on how they are delivered; after a line exactly its bytes are consumed.
     */
    method ReadLine() returns (answer: Line)
      requires Valid()
      modifies this
      ensures Valid() && answer == NextLine(Flatten(old(chunks)))
      ensures answer.Text? ==> Flatten(chunks) == Flatten(old(chunks))[|answer.line|..]
      ensures answer.Text? ==> answer.line != []
    {
      var line: seq<byte> := [];
      ghost var all := Flatten(chunks);
      while true
        invariant Valid() && all == line + Flatten(chunks) && NEWLINE !in line && |line| <= MAX_FRAME_BYTES
        decreases |chunks|
      {
        if chunks == [] {
          assert all == line;
          SkipClean(line, []);
          return if line == [] then End else Truncated;
        }
        var buf := chunks[0];
        ghost var before := Flatten(chunks);
        assert all == line + buf + Flatten(chunks[1..]) by {
          assert line + (buf + Flatten(chunks[1..])) == line + buf + Flatten(chunks[1..]);
        }
        ChunkDecides(line, buf, Flatten(chunks[1..]));
        var end := NewlineAt(buf);
        var take := if end.Some? then end.value + 1 else |buf|;
        if |line| + take > MAX_FRAME_BYTES {
          return TooLong;
        }
        Consume(take);
        TakeOver(all, line, buf, before, take);
        line := line + buf[..take];
        if end.Some? {
          return Text(line);
        }
      }
    }

    /** All lines until the end of the stream or an error. */
    method ReadLines() returns (lines: seq<seq<byte>>, last: Line)
      requires Valid()
      modifies this
      ensures (lines, last) == Lines(Flatten(old(chunks)))
    {
      lines := [];
      ghost var all := Lines(Flatten(chunks));
      assert all.0 == lines + Lines(Flatten(chunks)).0;
      while true
        invariant Valid()
        invariant all.0 == lines + Lines(Flatten(chunks)).0 && all.1 == Lines(Flatten(chunks)).1
        decreases |Flatten(chunks)|
      {
        ghost var rest := Flatten(chunks);
        var next := ReadLine();
        if !next.Text? {
          assert all.0 == lines;
          return lines, next;
        }
        assert Lines(rest).0 == [next.line] + Lines(Flatten(chunks)).0;
        lines := lines + [next.line];
      }
    }
  }

  /** A line ends with its only newline and fits the limit. */
  ghost predicate WholeLine(line: seq<byte>) {
    0 < |line| <= 16_777_216 && line[|line| - 1] == 10 && 10 !in line[..|line| - 1]
  }

  /** The first line is a prefix of the stream. */
  lemma LineIsAPrefix(bytes: seq<byte>)
    requires NextLine(bytes).Text?
    ensures var line := NextLine(bytes).line;
            WholeLine(line) && bytes == line + bytes[|line|..]
  {
    var at := NewlineAt(bytes).value;
    assert bytes[..at + 1][..at] == bytes[..at];
  }

  /** Reading stops exactly at the end, in an unfinished line, or at a line over the limit. */
  lemma StopsFor(bytes: seq<byte>)
    requires !NextLine(bytes).Text?
    ensures Ends(bytes, NextLine(bytes))
  {
    match NewlineAt(bytes) {
      case Some(at) => assert bytes[..MAX_FRAME_BYTES] == bytes[..at][..MAX_FRAME_BYTES];
      case None =>
    }
  }

  /**
   Cutting is exact: whole lines in order and what follows them are the stream, and what follows
   explains why the reading ended.
   */
  lemma {:induction false} LinesAreTheStream(bytes: seq<byte>) returns (rest: seq<byte>)
    ensures forall line :: line in Lines(bytes).0 ==> WholeLine(line)
    ensures bytes == Flatten(Lines(bytes).0) + rest
    ensures Ends(rest, Lines(bytes).1)
    decreases |bytes|
  {
    if NextLine(bytes).Text? {
      LineIsAPrefix(bytes);
      var line := NextLine(bytes).line;
      rest := LinesAreTheStream(bytes[|line|..]);
      Prepend(bytes, line, Lines(bytes[|line|..]).0, rest);
    } else {
      StopsFor(bytes);
      rest := bytes;
    }
  }

  lemma Prepend(bytes: seq<byte>, line: seq<byte>, others: seq<seq<byte>>, rest: seq<byte>)
    requires line <= bytes && bytes[|line|..] == Flatten(others) + rest
    ensures bytes == Flatten([line] + others) + rest
  {
    assert ([line] + others)[1..] == others;
    assert bytes == line + bytes[|line|..];
    assert line + (Flatten(others) + rest) == (line + Flatten(others)) + rest;
  }

  /** What is left of the stream when reading stops for the reason `why`. */
  ghost predicate Ends(rest: seq<byte>, why: Line) {
    match why
    case End => rest == []
    case Truncated => 0 < |rest| <= MAX_FRAME_BYTES && NEWLINE !in rest
    case TooLong => |rest| > MAX_FRAME_BYTES && NEWLINE !in rest[..MAX_FRAME_BYTES]
    case Text(_) => false
  }
}
