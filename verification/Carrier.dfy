/** The reading side of the carrier: channel chunks through both decoders. */
module Carrier {
  import opened Wrappers
  import opened Protocol
  import Framing
  import Pdu = ChannelPdu

  /** What reading chunks gives: both decoder states, the envelopes, and whether a chunk was refused. */
  datatype Read = Read(pdu: Pdu.Pdu, p: Framing.Progress, frames: seq<Envelope>, refused: bool)

  /** What is read after `frames`. */
  function After(frames: seq<Envelope>, rest: Read): Read {
    rest.(frames := frames + rest.frames)
  }

  /** Chunk by chunk until one is refused by either decoder. */
  function ReadChunks(codec: Codec, pdu: Pdu.Pdu, p: Framing.Progress, chunks: seq<seq<byte>>): Read
    requires Framing.Valid(codec, p)
    decreases |chunks|
  {
    if chunks == [] then Read(pdu, p, [], false)
    else
      match Pdu.PushPdu(pdu, chunks[0])
      case (next, Err(_)) => Read(next, p, [], true)
      case (next, Ok(data)) =>
        var fed := Framing.Feed(codec, p, data);
        if fed.error.Some? then Read(next, fed.p, [], true)
        else
          After(fed.frames, ReadChunks(codec, next, fed.p, chunks[1..]))
  }

  /** One chunk, and then the rest. */
  function ReadOne(codec: Codec, pdu: Pdu.Pdu, p: Framing.Progress, chunk: seq<byte>, rest: seq<seq<byte>>): Read
    requires Framing.Valid(codec, p)
  {
    var (next, data) := Pdu.PushPdu(pdu, chunk);
    if data.Err? then Read(next, p, [], true)
    else
      var fed := Framing.Feed(codec, p, data.value);
      if fed.error.Some? then Read(next, fed.p, [], true)
      else After(fed.frames, ReadChunks(codec, next, fed.p, rest))
  }

  lemma ReadNext(codec: Codec, pdu: Pdu.Pdu, p: Framing.Progress, chunks: seq<seq<byte>>, i: nat)
    requires Framing.Valid(codec, p) && i < |chunks|
    ensures ReadChunks(codec, pdu, p, chunks[i..]) == ReadOne(codec, pdu, p, chunks[i], chunks[i + 1..])
  {
    assert chunks[i..][1..] == chunks[i + 1..];
  }

  lemma AfterMore(frames: seq<Envelope>, more: seq<Envelope>, rest: Read)
    ensures After(frames, After(more, rest)) == After(frames + more, rest)
    ensures After(frames, rest.(frames := [])).frames == frames
  {
    assert frames + (more + rest.frames) == (frames + more) + rest.frames;
    assert frames + [] == frames;
  }

  /** What one chunk means for `all` that is read, when `frames` were read before it. */
  lemma ReadTurn(codec: Codec, pdu: Pdu.Pdu, p: Framing.Progress, chunks: seq<seq<byte>>, i: nat,
                 frames: seq<Envelope>, all: Read)
    requires Framing.Valid(codec, p) && i < |chunks| && all == After(frames, ReadChunks(codec, pdu, p, chunks[i..]))
    ensures var (next, data) := Pdu.PushPdu(pdu, chunks[i]);
            if data.Err? || Framing.Feed(codec, p, data.value).error.Some? then all.frames == frames && all.refused
            else
              var fed := Framing.Feed(codec, p, data.value);
              all == After(frames + fed.frames, ReadChunks(codec, next, fed.p, chunks[i + 1..]))
  {
    ReadNext(codec, pdu, p, chunks, i);
    var (next, data) := Pdu.PushPdu(pdu, chunks[i]);
    assert frames + [] == frames;
    if data.Ok? {
      var fed := Framing.Feed(codec, p, data.value);
      AfterMore(frames, fed.frames, ReadChunks(codec, next, fed.p, chunks[i + 1..]));
    }
  }

  method ReadCarrier(codec: Codec, chunks: seq<seq<byte>>) returns (frames: seq<Envelope>, refused: bool)
    ensures var read := ReadChunks(codec, Pdu.Idle, Framing.Fresh, chunks);
            frames == read.frames && refused == read.refused
  {
    var decoder := new Framing.Decoder(codec);
    var pdu := new Pdu.PduDecoder();
    frames, refused := [], false;
    var i := 0;
    ghost var all := ReadChunks(codec, Pdu.Idle, Framing.Fresh, chunks);
    assert chunks[0..] == chunks && all == After([], all);
    while i < |chunks|
      invariant 0 <= i <= |chunks| && !refused
      invariant fresh(decoder) && fresh(pdu) && decoder.codec == codec && Framing.Valid(codec, decoder.View())
      invariant all == After(frames, ReadChunks(codec, pdu.View(), decoder.View(), chunks[i..]))
    {
      ReadTurn(codec, pdu.View(), decoder.View(), chunks, i, frames, all);
      var data := pdu.Push(chunks[i]);
      if data.Err? {
        return frames, true;
      }
      var answer := decoder.Push(data.value);
      if answer.Err? {
        return frames, true;
      }
      frames := frames + answer.value;
      i := i + 1;
    }
  }

  /** A sequence of PDUs, each cut into pieces. */
  datatype Cut = Cut(pieces: seq<seq<byte>>, show: seq<bool>)

  ghost predicate ProperCuts(cuts: seq<Cut>) {
    forall i :: 0 <= i < |cuts| ==> Pdu.Proper(cuts[i].pieces) && |cuts[i].show| == |cuts[i].pieces|
  }

  function AllChunks(cuts: seq<Cut>): seq<seq<byte>>
    requires ProperCuts(cuts)
  {
    if cuts == [] then []
    else Pdu.ChunksOf(cuts[0].pieces, cuts[0].show, |cuts[0].pieces|) + AllChunks(cuts[1..])
  }

  function AllPieces(cuts: seq<Cut>): seq<seq<byte>> {
    if cuts == [] then [] else cuts[0].pieces + AllPieces(cuts[1..])
  }

  lemma {:induction false} ReadAppend(codec: Codec, pdu: Pdu.Pdu, p: Framing.Progress, a: seq<seq<byte>>,
                                      b: seq<seq<byte>>)
    requires Framing.Valid(codec, p)
    ensures Framing.Valid(codec, ReadChunks(codec, pdu, p, a).p)
    ensures !ReadChunks(codec, pdu, p, a).refused ==>
              ReadChunks(codec, pdu, p, a + b) ==
              After(ReadChunks(codec, pdu, p, a).frames,
                    ReadChunks(codec, ReadChunks(codec, pdu, p, a).pdu, ReadChunks(codec, pdu, p, a).p, b))
    decreases |a|
  {
    if a == [] {
      assert a + b == b;
      var rest := ReadChunks(codec, pdu, p, b);
      assert [] + rest.frames == rest.frames;
    } else {
      assert (a + b)[1..] == a[1..] + b;
      var (next, data) := Pdu.PushPdu(pdu, a[0]);
      if data.Ok? {
        var fed := Framing.Feed(codec, p, data.value);
        if fed.error.None? {
          ReadAppend(codec, next, fed.p, a[1..], b);
          var middle := ReadChunks(codec, next, fed.p, a[1..]);
          if !middle.refused {
            var rest := ReadChunks(codec, middle.pdu, middle.p, b);
            assert (fed.frames + middle.frames) + rest.frames == fed.frames + (middle.frames + rest.frames);
          }
        }
      }
    }
  }

  /** Reading the chunks of one PDU is feeding its pieces. */
  lemma {:induction false} ReadPieces(codec: Codec, pdu: Pdu.Pdu, p: Framing.Progress, cut: Cut, n: nat)
    requires Framing.Valid(codec, p) && pdu.remaining.None? && ProperCuts([cut]) && n <= |cut.pieces|
    requires Framing.FeedChunks(codec, p, cut.pieces[n..]).error.None?
    ensures |cut.show| == |cut.pieces|
    ensures var fed := Framing.FeedChunks(codec, p, cut.pieces[n..]);
            ReadChunks(codec, Pdu.AfterChunks(pdu, cut.pieces, n), p,
                       Pdu.ChunksOf(cut.pieces, cut.show, |cut.pieces|)[n..]) ==
            Read(Pdu.AfterChunks(pdu, cut.pieces, |cut.pieces|), fed.p, fed.frames, false)
    decreases |cut.pieces| - n
  {
    assert Pdu.Proper([cut][0].pieces) && |[cut][0].show| == |[cut][0].pieces|;
    var chunks := Pdu.ChunksOf(cut.pieces, cut.show, |cut.pieces|);
    if n < |cut.pieces| {
      Pdu.NextChunk(pdu, cut.pieces, cut.show, n);
      assert chunks[n..][0] == Pdu.ChunkOf(cut.pieces, cut.show, n);
      assert chunks[n..][1..] == chunks[n + 1..];
      assert cut.pieces[n..][1..] == cut.pieces[n + 1..];
      var first := Framing.Feed(codec, p, cut.pieces[n]);
      ReadPieces(codec, pdu, first.p, cut, n + 1);
    }
  }

  lemma {:induction false} FeedChunksAppend(codec: Codec, p: Framing.Progress, a: seq<seq<byte>>, b: seq<seq<byte>>)
    requires Framing.Valid(codec, p) && Framing.FeedChunks(codec, p, a + b).error.None?
    ensures var first := Framing.FeedChunks(codec, p, a);
            && first.error.None?
            && var rest := Framing.FeedChunks(codec, first.p, b);
               Framing.FeedChunks(codec, p, a + b) == rest.(frames := first.frames + rest.frames)
    decreases |a|
  {
    if a == [] {
      assert a + b == b;
      var rest := Framing.FeedChunks(codec, p, b);
      assert [] + rest.frames == rest.frames;
    } else {
      assert (a + b)[1..] == a[1..] + b;
      var first := Framing.Feed(codec, p, a[0]);
      FeedChunksAppend(codec, first.p, a[1..], b);
      var middle := Framing.FeedChunks(codec, first.p, a[1..]);
      var rest := Framing.FeedChunks(codec, middle.p, b);
      assert (first.frames + middle.frames) + rest.frames == first.frames + (middle.frames + rest.frames);
    }
  }

  lemma {:induction false} ReadCuts(codec: Codec, pdu: Pdu.Pdu, p: Framing.Progress, cuts: seq<Cut>)
    requires Framing.Valid(codec, p) && pdu.remaining.None? && ProperCuts(cuts)
    requires Framing.FeedChunks(codec, p, AllPieces(cuts)).error.None?
    ensures var fed := Framing.FeedChunks(codec, p, AllPieces(cuts));
            var read := ReadChunks(codec, pdu, p, AllChunks(cuts));
            !read.refused && read.frames == fed.frames && read.p == fed.p && read.pdu.remaining.None?
    decreases |cuts|
  {
    if cuts != [] {
      var cut := cuts[0];
      FeedChunksAppend(codec, p, cut.pieces, AllPieces(cuts[1..]));
      var first := Framing.FeedChunks(codec, p, cut.pieces);
      assert cut.pieces[0..] == cut.pieces;
      ReadPieces(codec, pdu, p, cut, 0);
      var chunks := Pdu.ChunksOf(cut.pieces, cut.show, |cut.pieces|);
      assert chunks[0..] == chunks;
      ReadAppend(codec, pdu, p, chunks, AllChunks(cuts[1..]));
      ReadCuts(codec, Pdu.AfterChunks(pdu, cut.pieces, |cut.pieces|), first.p, cuts[1..]);
    }
  }

  /**
   Framed envelopes, cut anywhere into PDUs and the PDUs cut anywhere into chunks, come out of the two
   decoders exactly as they were, and leave both at a boundary.
   */
  lemma EnvelopesCrossTheChannel(codec: Codec, es: seq<Envelope>, cuts: seq<Cut>)
    requires Faithful(codec) && Framing.Sendable(codec, es) && ProperCuts(cuts)
    requires Framing.Flatten(AllPieces(cuts)) == Framing.Stream(codec, es)
    ensures var read := ReadChunks(codec, Pdu.Idle, Framing.Fresh, AllChunks(cuts));
            !read.refused && read.frames == es && read.p == Framing.Fresh && read.pdu.remaining.None?
  {
    Framing.FramesSurviveFragmentation(codec, es, AllPieces(cuts));
    ReadCuts(codec, Pdu.Idle, Framing.Fresh, cuts);
  }
}
