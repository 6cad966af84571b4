/** Length-prefixed frames and their incremental decoder. */
module Framing {
  import opened Wrappers
  import opened Protocol

  function Encode(codec: Codec, e: Envelope): Result<seq<byte>, ()> {
    var payload := codec.serialize(e);
    if |payload| > MAX_FRAME_BYTES then Err(()) else Ok(ToLe(|payload|) + payload)
  }

  datatype PushError = BadLength | BadPayload | OtherVersion(version: nat)

  /** The decoder between two bytes: what it buffers, and the length of the payload it expects. */
  datatype Progress = Progress(buffer: seq<byte>, expected: Option<nat>)

  const Fresh := Progress([], None)

  function Target(p: Progress): nat {
    if p.expected.Some? then p.expected.value else 4
  }

  /**
   The buffer is shorter than its target, except after a payload that did not parse: that payload
   stays in the buffer, and every later byte meets it again.
   */
  predicate Valid(codec: Codec, p: Progress) {
    && (p.expected.None? ==> |p.buffer| < 4)
    && (p.expected.Some? ==> 1 <= p.expected.value <= MAX_FRAME_BYTES)
    && |p.buffer| <= Target(p)
    && (p.expected.Some? && |p.buffer| == Target(p) ==> codec.parse(p.buffer).None?)
  }

  /** What bytes do to the decoder. An error drops the frames of the call it happens in. */
  datatype Fed = Fed(p: Progress, frames: seq<Envelope>, error: Option<PushError>)

  /** The buffer reached its target. */
  function Complete(codec: Codec, p: Progress): Fed
    requires |p.buffer| == Target(p)
  {
    if p.expected.None? then
      var len := FromLe(p.buffer);
      if len == 0 || len > MAX_FRAME_BYTES then Fed(Fresh, [], Some(BadLength))
      else Fed(Progress([], Some(len)), [], None)
    else
      match codec.parse(p.buffer)
      case None => Fed(p, [], Some(BadPayload))
      case Some(e) =>
        if e.version != PROTOCOL_VERSION then Fed(Fresh, [], Some(OtherVersion(e.version)))
        else Fed(Fresh, [e], None)
  }

  /** One byte. */
  function Put(codec: Codec, p: Progress, b: byte): Fed
    requires Valid(codec, p)
  {
    if |p.buffer| == Target(p) then Fed(p, [], Some(BadPayload))
    else
      var grown := p.(buffer := p.buffer + [b]);
      if |grown.buffer| < Target(p) then Fed(grown, [], None) else Complete(codec, grown)
  }

  /** The rest of a call that decoded `frames` so far. */
  function Then(frames: seq<Envelope>, rest: Fed): Fed {
    if rest.error.Some? then rest.(frames := []) else rest.(frames := frames + rest.frames)
  }

  /** All of `bytes`, one after the other, in one call. */
  function Feed(codec: Codec, p: Progress, bytes: seq<byte>): (f: Fed)
    requires Valid(codec, p)
    ensures Valid(codec, f.p) && (f.error.Some? ==> f.frames == [])
    decreases |bytes|
  {
    if bytes == [] then Fed(p, [], None)
    else
      var first := Put(codec, p, bytes[0]);
      if first.error.Some? then first else Then(first.frames, Feed(codec, first.p, bytes[1..]))
  }

  // ----- laws of feeding -----

  lemma ThenAssociates(a: seq<Envelope>, b: seq<Envelope>, c: Fed)
    ensures Then(a + b, c) == Then(a, Then(b, c))
  {
    assert (a + b) + c.frames == a + (b + c.frames);
  }

  lemma ThenNothing(rest: Fed)
    requires rest.error.Some? ==> rest.frames == []
    ensures Then([], rest) == rest
  {
    assert [] + rest.frames == rest.frames;
  }

  /** Two calls without an error do what one call does. */
  lemma {:induction false} FeedAppend(codec: Codec, p: Progress, a: seq<byte>, b: seq<byte>)
    requires Valid(codec, p)
    ensures var first := Feed(codec, p, a);
            Feed(codec, p, a + b) == if first.error.Some? then first else Then(first.frames, Feed(codec, first.p, b))
    decreases |a|
  {
    if a == [] {
      assert a + b == b;
    } else {
      var first := Put(codec, p, a[0]);
      assert (a + b)[1..] == a[1..] + b;
      if first.error.None? {
        FeedAppend(codec, first.p, a[1..], b);
        var middle := Feed(codec, first.p, a[1..]);
        if middle.error.None? {
          ThenAssociates(first.frames, middle.frames, Feed(codec, middle.p, b));
        }
      }
    }
  }

  /** Bytes that do not reach the target only grow the buffer; those that reach it complete it. */
  lemma {:induction false} FeedChunk(codec: Codec, p: Progress, chunk: seq<byte>)
    requires Valid(codec, p) && chunk != [] && |p.buffer| + |chunk| <= Target(p)
    ensures var grown := p.(buffer := p.buffer + chunk);
            Feed(codec, p, chunk) == if |grown.buffer| < Target(p) then Fed(grown, [], None) else Complete(codec, grown)
    decreases |chunk|
  {
    if |chunk| == 1 {
      assert chunk == [chunk[0]];
      FeedOne(codec, p, chunk[0]);
    } else {
      FeedFirst(codec, p, chunk);
      FeedChunk(codec, p.(buffer := p.buffer + [chunk[0]]), chunk[1..]);
      assert (p.buffer + [chunk[0]]) + chunk[1..] == p.buffer + chunk;
    }
  }

  /** A single byte. */
  lemma FeedOne(codec: Codec, p: Progress, b: byte)
    requires Valid(codec, p) && |p.buffer| < Target(p)
    ensures Feed(codec, p, [b]) == Put(codec, p, b)
  {
    var first := Put(codec, p, b);
    assert Feed(codec, first.p, []) == Fed(first.p, [], None);
    assert first.frames + [] == first.frames;
  }

  /** A byte that does not reach the target, and the rest. */
  lemma FeedFirst(codec: Codec, p: Progress, chunk: seq<byte>)
    requires Valid(codec, p) && chunk != [] && |p.buffer| + 1 < Target(p)
    ensures var grown := p.(buffer := p.buffer + [chunk[0]]);
            Valid(codec, grown) && Feed(codec, p, chunk) == Feed(codec, grown, chunk[1..])
  {
    var grown := p.(buffer := p.buffer + [chunk[0]]);
    assert Put(codec, p, chunk[0]) == Fed(grown, [], None);
    ThenNothing(Feed(codec, grown, chunk[1..]));
  }

  /** What a call did so far, and the first `take` of the bytes it still has. */
  lemma FeedTake(codec: Codec, p: Progress, frames: seq<Envelope>, bytes: seq<byte>, take: nat)
    requires Valid(codec, p) && 0 < take <= |bytes| && |p.buffer| + take <= Target(p)
    ensures var grown := p.(buffer := p.buffer + bytes[..take]);
            var next := if |grown.buffer| < Target(p) then Fed(grown, [], None) else Complete(codec, grown);
            && Valid(codec, next.p)
            && Then(frames, Feed(codec, p, bytes))
            == if next.error.Some? then next else Then(frames + next.frames, Feed(codec, next.p, bytes[take..]))
  {
    FeedChunk(codec, p, bytes[..take]);
    FeedAppend(codec, p, bytes[..take], bytes[take..]);
    assert bytes == bytes[..take] + bytes[take..];
    var next := Feed(codec, p, bytes[..take]);
    if next.error.None? {
      ThenAssociates(frames, next.frames, Feed(codec, next.p, bytes[take..]));
    }
  }

  /** After a payload that did not parse every byte meets it again. */
  lemma FeedWedged(codec: Codec, p: Progress, bytes: seq<byte>)
    requires Valid(codec, p) && bytes != [] && |p.buffer| == Target(p)
    ensures Feed(codec, p, bytes) == Fed(p, [], Some(BadPayload)) == Complete(codec, p)
    ensures p.(buffer := p.buffer + bytes[..0]) == p
  {
    assert p.buffer + bytes[..0] == p.buffer;
  }

  // ----- the decoder -----

  class Decoder {
    const codec: Codec
    var buffer: seq<byte>
    var expected: Option<nat>

    function View(): Progress
      reads this
    {
      Progress(buffer, expected)
    }

    constructor (codec: Codec)
      ensures this.codec == codec && View() == Fresh && Valid(codec, View())
    {
      this.codec := codec;
      buffer, expected := [], None;
    }

    /** The buffer reached its target: a length, or a payload. */
    method Reach() returns (frame: Option<Envelope>, error: Option<PushError>)
      requires |buffer| == Target(View())
      modifies this
      ensures Fed(View(), if frame.Some? then [frame.value] else [], error) == Complete(codec, old(View()))
    {
      frame, error := None, None;
      if expected.None? {
        var len := FromLe(buffer);
        buffer := [];
        if len == 0 || len > MAX_FRAME_BYTES {
          error := Some(BadLength);
        } else {
          expected := Some(len);
        }
      } else {
        var parsed := codec.parse(buffer);
        if parsed.None? {
          return None, Some(BadPayload);
        }
        buffer, expected := [], None;
        if parsed.value.version != PROTOCOL_VERSION {
          error := Some(OtherVersion(parsed.value.version));
        } else {
          frame := parsed;
        }
      }
    }

    method Push(input: seq<byte>) returns (answer: Result<seq<Envelope>, PushError>)
      requires Valid(codec, View())
      modifies this
      ensures Valid(codec, View()) && |buffer| <= MAX_FRAME_BYTES
      ensures var fed := Feed(codec, old(View()), input);
              && View() == fed.p
              && answer == if fed.error.Some? then Err(fed.error.value) else Ok(fed.frames)
    {
      var bytes := input;
      var frames: seq<Envelope> := [];
      ghost var fed := Feed(codec, View(), input);
      assert [] + fed.frames == fed.frames;
      while bytes != []
        invariant Valid(codec, View())
        invariant fed == Then(frames, Feed(codec, View(), bytes))
        decreases |bytes|
      {
        var target := if expected.Some? then expected.value else 4;
        var room := target - |buffer|;
        var take := if room < |bytes| then room else |bytes|;
        if take > 0 {
          FeedTake(codec, View(), frames, bytes, take);
        } else {
          FeedWedged(codec, View(), bytes);
        }
        buffer := buffer + bytes[..take];
        bytes := bytes[take..];
        assert frames + [] == frames;
        if |buffer| != target {
          continue;
        }
        var frame, error := Reach();
        if error.Some? {
          return Err(error.value);
        }
        if frame.Some? {
          frames := frames + [frame.value];
        }
      }
      assert frames + [] == frames;
      return Ok(frames);
    }

    method Finish() returns (ok: bool)
      ensures ok <==> View() == Fresh
    {
      ok := buffer == [] && expected.None?;
    }
  }

  // ----- fragmentation -----

  function Flatten(chunks: seq<seq<byte>>): seq<byte> {
    if chunks == [] then [] else chunks[0] + Flatten(chunks[1..])
  }

  /** One call per chunk, until a call fails. The frames of earlier calls are kept. */
  function FeedChunks(codec: Codec, p: Progress, chunks: seq<seq<byte>>): (f: Fed)
    requires Valid(codec, p)
    ensures Valid(codec, f.p)
    decreases |chunks|
  {
    if chunks == [] then Fed(p, [], None)
    else
      var first := Feed(codec, p, chunks[0]);
      if first.error.Some? then first
      else
        var rest := FeedChunks(codec, first.p, chunks[1..]);
        rest.(frames := first.frames + rest.frames)
  }

  /**
   However a stream is cut into calls, the calls fail exactly when one call with the whole stream
   fails, with the same error and in the same state; without an error the frames are the same too.
   */
  lemma {:induction false} FragmentationIsInvisible(codec: Codec, p: Progress, chunks: seq<seq<byte>>)
    requires Valid(codec, p)
    ensures var whole := Feed(codec, p, Flatten(chunks));
            var cut := FeedChunks(codec, p, chunks);
            && cut.error == whole.error && cut.p == whole.p
            && (whole.error.None? ==> cut.frames == whole.frames)
    decreases |chunks|
  {
    if chunks != [] {
      FeedAppend(codec, p, chunks[0], Flatten(chunks[1..]));
      var first := Feed(codec, p, chunks[0]);
      if first.error.None? {
        FragmentationIsInvisible(codec, first.p, chunks[1..]);
      }
    }
  }

  /** Every envelope can be sent: it has this version and its payload fits. */
  ghost predicate Sendable(codec: Codec, es: seq<Envelope>) {
    forall i :: 0 <= i < |es| ==> es[i].version == PROTOCOL_VERSION && Encode(codec, es[i]).Ok?
  }

  function Stream(codec: Codec, es: seq<Envelope>): seq<byte>
    requires Sendable(codec, es)
  {
    if es == [] then [] else Encode(codec, es[0]).value + Stream(codec, es[1..])
  }

  lemma FeedFrame(codec: Codec, e: Envelope)
    requires Faithful(codec) && e.version == PROTOCOL_VERSION && Encode(codec, e).Ok?
    ensures Feed(codec, Fresh, Encode(codec, e).value) == Fed(Fresh, [e], None)
  {
    var payload := codec.serialize(e);
    LeRoundTrip(|payload|);
    FeedChunk(codec, Fresh, ToLe(|payload|));
    assert [] + ToLe(|payload|) == ToLe(|payload|);
    FeedAppend(codec, Fresh, ToLe(|payload|), payload);
    FeedChunk(codec, Progress([], Some(|payload|)), payload);
    assert [] + payload == payload;
  }

  /** The whole stream in one call gives the envelopes back. */
  lemma {:induction false} StreamRoundTrip(codec: Codec, es: seq<Envelope>)
    requires Faithful(codec) && Sendable(codec, es)
    ensures Feed(codec, Fresh, Stream(codec, es)) == Fed(Fresh, es, None)
    decreases |es|
  {
    if es != [] {
      FeedFrame(codec, es[0]);
      StreamRoundTrip(codec, es[1..]);
      FeedAppend(codec, Fresh, Encode(codec, es[0]).value, Stream(codec, es[1..]));
      assert [es[0]] + es[1..] == es;
    }
  }

  /** Any cut of the stream into calls gives exactly the envelopes, in order, and ends at a frame boundary. */
  lemma FramesSurviveFragmentation(codec: Codec, es: seq<Envelope>, chunks: seq<seq<byte>>)
    requires Faithful(codec) && Sendable(codec, es) && Flatten(chunks) == Stream(codec, es)
    ensures FeedChunks(codec, Fresh, chunks) == Fed(Fresh, es, None)
  {
    StreamRoundTrip(codec, es);
    FragmentationIsInvisible(codec, Fresh, chunks);
  }

  // ----- refusals -----

  /** An envelope is encoded exactly if its payload has at most 16 MiB: its length in four bytes, and itself. */
  lemma EncodesExactly(codec: Codec, e: Envelope)
    ensures Encode(codec, e).Ok? <==> |codec.serialize(e)| <= 16_777_216
    ensures Encode(codec, e).Ok? ==>
              && |Encode(codec, e).value| == 4 + |codec.serialize(e)|
              && FromLe(Encode(codec, e).value[..4]) == |codec.serialize(e)|
              && Encode(codec, e).value[4..] == codec.serialize(e)
  {
    if |codec.serialize(e)| <= MAX_FRAME_BYTES {
      LeRoundTrip(|codec.serialize(e)|);
      assert Encode(codec, e).value[..4] == ToLe(|codec.serialize(e)|);
    }
  }

  /** What is wrong with a frame of these four length bytes and this payload, if anything is. */
  function WrongWith(codec: Codec, header: seq<byte>, payload: seq<byte>): Option<PushError>
    requires |header| == 4
  {
    var parsed := codec.parse(payload);
    if FromLe(header) == 0 || FromLe(header) > 16_777_216 then Some(BadLength)
    else if parsed.None? then Some(BadPayload)
    else if parsed.value.version != 2 then Some(OtherVersion(parsed.value.version))
    else None
  }

  lemma HeaderDecides(codec: Codec, header: seq<byte>)
    requires |header| == 4
    ensures Feed(codec, Fresh, header) ==
            if FromLe(header) == 0 || FromLe(header) > 16_777_216 then Fed(Fresh, [], Some(BadLength))
            else Fed(Progress([], Some(FromLe(header))), [], None)
  {
    FeedChunk(codec, Fresh, header);
    assert [] + header == header;
  }

  lemma PayloadDecides(codec: Codec, len: nat, payload: seq<byte>)
    requires 0 < |payload| == len <= MAX_FRAME_BYTES
    ensures var p, parsed := Progress([], Some(len)), codec.parse(payload);
            Feed(codec, p, payload) ==
            if parsed.None? then Fed(Progress(payload, Some(len)), [], Some(BadPayload))
            else if parsed.value.version != 2 then Fed(Fresh, [], Some(OtherVersion(parsed.value.version)))
            else Fed(Fresh, [parsed.value], None)
  {
    FeedChunk(codec, Progress([], Some(len)), payload);
    assert [] + payload == payload;
  }

  /**
   After any good frames in the same call, the next frame is refused exactly for a length of 0 or above
   16 MiB, a payload that does not parse, or another version; otherwise it is added.
   */
  lemma FramesAreRefusedExactly(codec: Codec, es: seq<Envelope>, header: seq<byte>, payload: seq<byte>)
    requires Faithful(codec) && Sendable(codec, es) && |header| == 4 && |payload| == FromLe(header)
    ensures var fed := Feed(codec, Fresh, Stream(codec, es) + (header + payload));
            var wrong := WrongWith(codec, header, payload);
            && fed.error == wrong
            && fed.frames == (if wrong.Some? then [] else es + [codec.parse(payload).value])
  {
    StreamRoundTrip(codec, es);
    FeedAppend(codec, Fresh, Stream(codec, es), header + payload);
    HeaderDecides(codec, header);
    FeedAppend(codec, Fresh, header, payload);
    if 0 < |payload| <= MAX_FRAME_BYTES {
      PayloadDecides(codec, |payload|, payload);
    }
  }

  /** A proper, nonempty part of a frame leaves the decoder inside that frame. */
  lemma PartOfFrame(codec: Codec, e: Envelope, n: nat)
    requires Faithful(codec) && e.version == PROTOCOL_VERSION && Encode(codec, e).Ok?
    requires 0 < n < |Encode(codec, e).value|
    ensures var fed := Feed(codec, Fresh, Encode(codec, e).value[..n]);
            fed.error.None? && fed.frames == [] && fed.p != Fresh
  {
    var payload := codec.serialize(e);
    var frame := Encode(codec, e).value;
    LeRoundTrip(|payload|);
    if n <= 4 {
      assert frame[..n] == ToLe(|payload|)[..n];
      FeedChunk(codec, Fresh, frame[..n]);
      assert [] + frame[..n] == frame[..n];
      assert n == 4 ==> frame[..n] == ToLe(|payload|);
    } else {
      FeedChunk(codec, Fresh, ToLe(|payload|));
      assert [] + ToLe(|payload|) == ToLe(|payload|);
      assert frame[..n] == ToLe(|payload|) + payload[..n - 4];
      FeedAppend(codec, Fresh, ToLe(|payload|), payload[..n - 4]);
      FeedChunk(codec, Progress([], Some(|payload|)), payload[..n - 4]);
    }
  }

  /** `n` bytes of the stream are a whole number of frames. */
  ghost predicate Boundary(codec: Codec, es: seq<Envelope>, n: nat)
    requires Sendable(codec, es)
  {
    exists j :: 0 <= j <= |es| && n == |Stream(codec, es[..j])|
  }

  lemma StreamOfPrefix(codec: Codec, es: seq<Envelope>, j: nat)
    requires Sendable(codec, es) && j <= |es|
    ensures Stream(codec, es[..0]) == []
    ensures j > 0 ==> Stream(codec, es[..j]) == Encode(codec, es[0]).value + Stream(codec, es[1..][..j - 1])
  {
    assert es[..0] == [];
    if j > 0 {
      assert es[..j][1..] == es[1..][..j - 1];
    }
  }

  /** The boundaries of a stream are its start and the boundaries after its first frame. */
  lemma BoundaryAfterFrame(codec: Codec, es: seq<Envelope>, n: nat)
    requires Sendable(codec, es) && es != [] && n > 0
    ensures Boundary(codec, es, n) <==>
            n >= |Encode(codec, es[0]).value| && Boundary(codec, es[1..], n - |Encode(codec, es[0]).value|)
  {
    var frame := Encode(codec, es[0]).value;
    if Boundary(codec, es, n) {
      var j :| 0 <= j <= |es| && n == |Stream(codec, es[..j])|;
      StreamOfPrefix(codec, es, j);
      assert n - |frame| == |Stream(codec, es[1..][..j - 1])|;
    }
    if n >= |frame| && Boundary(codec, es[1..], n - |frame|) {
      var j :| 0 <= j <= |es[1..]| && n - |frame| == |Stream(codec, es[1..][..j])|;
      StreamOfPrefix(codec, es, j + 1);
      assert n == |Stream(codec, es[..j + 1])|;
    }
  }

  /** After any part of the stream, `Finish` succeeds exactly at a frame boundary. */
  lemma {:induction false} FinishOnlyAtBoundaries(codec: Codec, es: seq<Envelope>, n: nat)
    requires Faithful(codec) && Sendable(codec, es) && n <= |Stream(codec, es)|
    ensures var fed := Feed(codec, Fresh, Stream(codec, es)[..n]);
            fed.error.None? && (fed.p == Fresh <==> Boundary(codec, es, n))
    decreases |es|
  {
    if n == 0 {
      assert Stream(codec, es)[..n] == [];
      StreamOfPrefix(codec, es, 0);
    } else {
      var frame := Encode(codec, es[0]).value;
      var rest := Stream(codec, es[1..]);
      BoundaryAfterFrame(codec, es, n);
      if n < |frame| {
        assert Stream(codec, es)[..n] == frame[..n];
        PartOfFrame(codec, es[0], n);
      } else {
        assert Stream(codec, es)[..n] == frame + rest[..n - |frame|];
        FeedFrame(codec, es[0]);
        FeedAppend(codec, Fresh, frame, rest[..n - |frame|]);
        FinishOnlyAtBoundaries(codec, es[1..], n - |frame|);
      }
    }
  }
}
