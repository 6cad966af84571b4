/**
 CHANNEL_PDU_HEADER chunks of a dynamic virtual channel ([MS-RDPBCGR] section 2.2.6.1.1): every chunk
 carries the length of the whole PDU and flags for its first and its last chunk.
 */
module ChannelPdu {
  import opened Wrappers
  import opened Protocol
  import Framing

  const MAX_PDU: nat := MAX_FRAME_BYTES + 4

  /** FIRST is 1, LAST is 2 and SHOW_PROTOCOL is 16; no other flag may be set. */
  const LEGAL_FLAGS: set<nat> := {0, 1, 2, 3, 16, 17, 18, 19}

  predicate IsFirst(flags: nat) { flags % 2 == 1 }

  predicate IsLast(flags: nat) { flags / 2 % 2 == 1 }

  datatype Pdu = Pdu(remaining: Option<nat>, total: nat)

  const Idle := Pdu(None, 0)

  function LengthOf(chunk: seq<byte>): nat
    requires |chunk| >= 8
  {
    FromLe(chunk[..4])
  }

  function FlagsOf(chunk: seq<byte>): nat
    requires |chunk| >= 8
  {
    FromLe(chunk[4..8])
  }

  /** The state once a FIRST flag is seen; it stays even when the chunk is refused later. */
  function Started(p: Pdu, length: nat, flags: nat): Pdu {
    if IsFirst(flags) then Pdu(Some(length), length) else p
  }

  /** One chunk: the new state, and its data or a refusal. */
  function PushPdu(p: Pdu, chunk: seq<byte>): (Pdu, Result<seq<byte>, ()>) {
    if |chunk| < 8 then (p, Err(()))
    else
      var length, flags, data := LengthOf(chunk), FlagsOf(chunk), chunk[8..];
      if flags !in LEGAL_FLAGS || length == 0 || length > MAX_PDU then (p, Err(()))
      else if IsFirst(flags) && p.remaining.Some? then (p, Err(()))
      else
        var started := Started(p, length, flags);
        if started.remaining.None? || length != started.total || |data| > started.remaining.value
        then (started, Err(()))
        else
          var remaining := started.remaining.value - |data|;
          if IsLast(flags) != (remaining == 0) then (started, Err(()))
          else (started.(remaining := if IsLast(flags) then None else Some(remaining)), Ok(data))
  }

  class PduDecoder {
    var remaining: Option<nat>
    var total: nat

    function View(): Pdu
      reads this
    {
      Pdu(remaining, total)
    }

    constructor ()
      ensures View() == Idle
    {
      remaining, total := None, 0;
    }

    method Push(chunk: seq<byte>) returns (answer: Result<seq<byte>, ()>)
      modifies this
      ensures (View(), answer) == PushPdu(old(View()), chunk)
    {
      if |chunk| < 8 {
        return Err(());
      }
      var length := FromLe(chunk[..4]);
      var flags := FromLe(chunk[4..8]);
      var data := chunk[8..];
      if flags !in LEGAL_FLAGS || length == 0 || length > MAX_PDU {
        return Err(());
      }
      if IsFirst(flags) {
        if remaining.Some? {
          return Err(());
        }
        remaining := Some(length);
        total := length;
      }
      if remaining.None? {
        return Err(());
      }
      if length != total || |data| > remaining.value {
        return Err(());
      }
      var left := remaining.value - |data|;
      if IsLast(flags) {
        if left != 0 {
          return Err(());
        }
        remaining := None;
      } else {
        if left == 0 {
          return Err(());
        }
        remaining := Some(left);
      }
      return Ok(data);
    }
  }

  // ----- runs of chunks -----

  /** The state after `chunks`, and all their data, if none is refused. */
  function PushAll(p: Pdu, chunks: seq<seq<byte>>): (Pdu, Option<seq<byte>>)
    decreases |chunks|
  {
    if chunks == [] then (p, Some([]))
    else
      var (rest, data) := PushAll(p, chunks[..|chunks| - 1]);
      if data.None? then (rest, None)
      else
        match PushPdu(rest, chunks[|chunks| - 1])
        case (next, Ok(more)) => (next, Some(data.value + more))
        case (next, Err(_)) => (next, None)
  }

  /** The chunks of the newest PDU: from its FIRST chunk on. */
  function Newest(chunks: seq<seq<byte>>): seq<seq<byte>>
    decreases |chunks|
  {
    if chunks == [] then []
    else if |chunks[|chunks| - 1]| >= 8 && IsFirst(FlagsOf(chunks[|chunks| - 1])) then [chunks[|chunks| - 1]]
    else Newest(chunks[..|chunks| - 1]) + [chunks[|chunks| - 1]]
  }

  function DataLength(chunks: seq<seq<byte>>): nat {
    if chunks == [] then 0
    else DataLength(chunks[..|chunks| - 1]) + if |chunks[|chunks| - 1]| >= 8 then |chunks[|chunks| - 1]| - 8 else 0
  }

  /** All chunks of a PDU declare the same length. */
  ghost predicate Declares(chunks: seq<seq<byte>>, length: nat) {
    forall i :: 0 <= i < |chunks| ==> |chunks[i]| >= 8 && LengthOf(chunks[i]) == length
  }

  /**
   While a PDU is open, what remains is the declared length minus what was delivered; when it closes,
   exactly the declared length was delivered.
   */
  lemma {:induction false} DeliversTheDeclaredLength(chunks: seq<seq<byte>>)
    requires PushAll(Idle, chunks).1.Some?
    ensures var p := PushAll(Idle, chunks).0;
            && (p.remaining.Some? ==>
                  && 0 < p.remaining.value <= p.total && Declares(Newest(chunks), p.total)
                  && p.remaining.value == p.total - DataLength(Newest(chunks)))
            && (p.remaining.None? && chunks != [] ==>
                  Declares(Newest(chunks), p.total) && DataLength(Newest(chunks)) == p.total
                  && IsLast(FlagsOf(chunks[|chunks| - 1])))
    decreases |chunks|
  {
    if chunks != [] {
      var before, last := chunks[..|chunks| - 1], chunks[|chunks| - 1];
      DeliversTheDeclaredLength(before);
      var newest := Newest(chunks);
      if IsFirst(FlagsOf(last)) {
        assert newest[..0] == [];
      } else {
        assert newest[..|newest| - 1] == Newest(before);
      }
    }
  }

  /** A PDU has begun and its last chunk is still to come. */
  ghost predicate Unfinished(chunks: seq<seq<byte>>)
    requires forall i :: 0 <= i < |chunks| ==> |chunks[i]| >= 8
  {
    chunks != [] && FlagsOf(chunks[|chunks| - 1]) / 2 % 2 == 0
  }

  /** Only the bits of 1, 2 and 16 are set. */
  predicate OnlyKnownFlags(flags: nat) {
    flags < 32 && flags / 4 % 4 == 0
  }

  lemma KnownFlagsAreLegal(flags: nat)
    ensures OnlyKnownFlags(flags) <==> flags in LEGAL_FLAGS
  {
  }

  lemma {:induction false} AcceptedHaveHeaders(chunks: seq<seq<byte>>)
    requires PushAll(Idle, chunks).1.Some?
    ensures forall i :: 0 <= i < |chunks| ==> |chunks[i]| >= 8
    decreases |chunks|
  {
    if chunks != [] {
      AcceptedHaveHeaders(chunks[..|chunks| - 1]);
    }
  }

  lemma OpenWhileUnfinished(chunks: seq<seq<byte>>)
    requires PushAll(Idle, chunks).1.Some?
    ensures forall i :: 0 <= i < |chunks| ==> |chunks[i]| >= 8
    ensures Unfinished(chunks) <==> PushAll(Idle, chunks).0.remaining.Some?
  {
    AcceptedHaveHeaders(chunks);
  }

  /** A header with known flags and a legal length, and the chunk takes its place in the PDU it belongs to. */
  ghost predicate Fits(chunk: seq<byte>, unfinished: bool, newest: seq<seq<byte>>)
    requires |chunk| >= 8
  {
    && OnlyKnownFlags(FlagsOf(chunk)) && 0 < LengthOf(chunk) <= 16_777_220
    && (FlagsOf(chunk) % 2 == 1 <==> !unfinished)
    && Declares(newest, LengthOf(chunk)) && DataLength(newest) <= LengthOf(chunk)
    && (FlagsOf(chunk) / 2 % 2 == 1 <==> DataLength(newest) == LengthOf(chunk))
  }

  /** The chunks of the PDU that `chunk` belongs to, when those of the newest one before it are `before`. */
  function WithChunk(before: seq<seq<byte>>, chunk: seq<byte>): seq<seq<byte>>
    requires |chunk| >= 8
  {
    (if IsFirst(FlagsOf(chunk)) then [] else before) + [chunk]
  }

  /** One chunk, in terms of the chunks of the open PDU. */
  lemma AcceptsWhatFits(p: Pdu, before: seq<seq<byte>>, chunk: seq<byte>)
    requires |chunk| >= 8
    requires p.remaining.Some? ==>
               && before != [] && Declares(before, p.total) && DataLength(before) <= p.total
               && p.remaining.value == p.total - DataLength(before)
    ensures PushPdu(p, chunk).1.Ok? <==> Fits(chunk, p.remaining.Some?, WithChunk(before, chunk))
  {
    var so := if p.remaining.Some? then DataLength(before) else 0;
    AcceptsNext(p, chunk, so);
    KnownFlagsAreLegal(FlagsOf(chunk));
    if IsFirst(FlagsOf(chunk)) {
      DeclaresNext([], chunk, LengthOf(chunk));
      DataLengthNext([], chunk);
      assert WithChunk(before, chunk) == [chunk];
    } else {
      DeclaresNext(before, chunk, LengthOf(chunk));
      DataLengthNext(before, chunk);
      if p.remaining.Some? {
        DeclaresOne(before, p.total, LengthOf(chunk));
      }
    }
  }

  /** One chunk, when `so` bytes of the open PDU were delivered. */
  lemma AcceptsNext(p: Pdu, chunk: seq<byte>, so: nat)
    requires |chunk| >= 8
    requires p.remaining.Some? ==> so <= p.total && p.remaining.value == p.total - so
    ensures PushPdu(p, chunk).1.Ok? <==>
            && FlagsOf(chunk) in LEGAL_FLAGS && 0 < LengthOf(chunk) <= MAX_PDU
            && (IsFirst(FlagsOf(chunk)) <==> p.remaining.None?)
            && var data := (if IsFirst(FlagsOf(chunk)) then 0 else so) + |chunk| - 8;
               && (p.remaining.Some? ==> LengthOf(chunk) == p.total) && data <= LengthOf(chunk)
               && (IsLast(FlagsOf(chunk)) <==> data == LengthOf(chunk))
  {
  }

  lemma DeclaresOne(chunks: seq<seq<byte>>, length: nat, other: nat)
    requires chunks != [] && Declares(chunks, length)
    ensures Declares(chunks, other) <==> other == length
  {
    assert LengthOf(chunks[0]) == length;
  }

  /**
   What the decoder accepts after any accepted chunks: a whole header with known flags and a length within
   the limit; FIRST exactly if no PDU is unfinished; the length that the PDU declared; no more data than
   that; and LAST exactly if the data then is complete.
   */
  lemma AcceptsExactly(chunks: seq<seq<byte>>, chunk: seq<byte>)
    requires PushAll(Idle, chunks).1.Some?
    ensures forall i :: 0 <= i < |chunks| ==> |chunks[i]| >= 8
    ensures PushAll(Idle, chunks + [chunk]).1.Some? <==>
            |chunk| >= 8 && Fits(chunk, Unfinished(chunks), Newest(chunks + [chunk]))
  {
    OpenWhileUnfinished(chunks);
    DeliversTheDeclaredLength(chunks);
    PushNext(Idle, chunks, chunk);
    if |chunk| >= 8 {
      NewestNext(chunks, chunk);
      NewestIsSome(chunks);
      AcceptsWhatFits(PushAll(Idle, chunks).0, Newest(chunks), chunk);
    }
  }

  lemma PushNext(p: Pdu, chunks: seq<seq<byte>>, chunk: seq<byte>)
    requires PushAll(p, chunks).1.Some?
    ensures PushAll(p, chunks + [chunk]).1.Some? <==> PushPdu(PushAll(p, chunks).0, chunk).1.Ok?
  {
    assert (chunks + [chunk])[..|chunks|] == chunks;
  }

  lemma DeclaresNext(chunks: seq<seq<byte>>, chunk: seq<byte>, length: nat)
    requires |chunk| >= 8
    ensures Declares(chunks + [chunk], length) <==> Declares(chunks, length) && LengthOf(chunk) == length
  {
    var all := chunks + [chunk];
    assert all[|chunks|] == chunk;
    assert forall i :: 0 <= i < |chunks| ==> all[i] == chunks[i];
  }

  lemma NewestNext(chunks: seq<seq<byte>>, chunk: seq<byte>)
    requires |chunk| >= 8
    ensures Newest(chunks + [chunk]) == WithChunk(Newest(chunks), chunk)
  {
    assert (chunks + [chunk])[..|chunks|] == chunks;
  }

  lemma NewestIsSome(chunks: seq<seq<byte>>)
    ensures chunks != [] ==> Newest(chunks) != []
  {
  }

  lemma DataLengthNext(chunks: seq<seq<byte>>, chunk: seq<byte>)
    requires |chunk| >= 8
    ensures DataLength(chunks + [chunk]) == DataLength(chunks) + |chunk| - 8
  {
    assert (chunks + [chunk])[..|chunks|] == chunks;
  }

  // ----- cutting a byte string into chunks -----

  /** Chunk `i` of `pieces`; `show` says which chunks carry SHOW_PROTOCOL too. */
  function ChunkOf(pieces: seq<seq<byte>>, show: seq<bool>, i: nat): seq<byte>
    requires i < |pieces| == |show|
  {
    var flags := (if i == 0 then 1 else 0) + (if i == |pieces| - 1 then 2 else 0) + (if show[i] then 16 else 0);
    ToLe(|Framing.Flatten(pieces)|) + ToLe(flags) + pieces[i]
  }

  /** The first `n` chunks of `pieces`. */
  function ChunksOf(pieces: seq<seq<byte>>, show: seq<bool>, n: nat): seq<seq<byte>>
    requires n <= |pieces| == |show|
  {
    seq(n, i requires 0 <= i < n => ChunkOf(pieces, show, i))
  }

  /** A PDU may be cut into `pieces` when it fits and some of it is left for the last one. */
  ghost predicate Proper(pieces: seq<seq<byte>>) {
    && pieces != [] && 0 < |Framing.Flatten(pieces)| <= MAX_PDU
    && (forall i :: 0 < i < |pieces| ==> |Framing.Flatten(pieces[..i])| < |Framing.Flatten(pieces)|)
  }

  lemma {:induction false} FlattenAppend(a: seq<seq<byte>>, b: seq<seq<byte>>)
    ensures Framing.Flatten(a + b) == Framing.Flatten(a) + Framing.Flatten(b)
  {
    if a == [] {
      assert a + b == b;
    } else {
      assert (a + b)[1..] == a[1..] + b;
      FlattenAppend(a[1..], b);
    }
  }

  lemma ChunkParts(pieces: seq<seq<byte>>, show: seq<bool>, i: nat)
    requires i < |pieces| == |show| && |Framing.Flatten(pieces)| <= MAX_PDU
    ensures var chunk := ChunkOf(pieces, show, i);
            && |chunk| >= 8 && chunk[8..] == pieces[i] && LengthOf(chunk) == |Framing.Flatten(pieces)|
            && chunk[..4] == ToLe(|Framing.Flatten(pieces)|)
            && FlagsOf(chunk) in LEGAL_FLAGS
            && (IsFirst(FlagsOf(chunk)) <==> i == 0) && (IsLast(FlagsOf(chunk)) <==> i == |pieces| - 1)
  {
    var flags := (if i == 0 then 1 else 0) + (if i == |pieces| - 1 then 2 else 0) + (if show[i] then 16 else 0);
    var chunk := ChunkOf(pieces, show, i);
    LeRoundTrip(|Framing.Flatten(pieces)|);
    LeRoundTrip(flags);
    assert chunk[..4] == ToLe(|Framing.Flatten(pieces)|);
    assert chunk[4..8] == ToLe(flags);
  }

  /** The decoder after the first `n` chunks of `pieces`, when it was `p` before them. */
  function AfterChunks(p: Pdu, pieces: seq<seq<byte>>, n: nat): Pdu
    requires n <= |pieces|
  {
    var total := |Framing.Flatten(pieces)|;
    if n == 0 then p
    else if n == |pieces| then Pdu(None, total)
    else
      var sent := |Framing.Flatten(pieces[..n])|;
      Pdu(Some(if sent <= total then total - sent else 0), total)
  }

  lemma NextChunk(p: Pdu, pieces: seq<seq<byte>>, show: seq<bool>, n: nat)
    requires p.remaining.None? && Proper(pieces) && n < |pieces| == |show|
    ensures PushPdu(AfterChunks(p, pieces, n), ChunkOf(pieces, show, n)) ==
            (AfterChunks(p, pieces, n + 1), Ok(pieces[n]))
    ensures Framing.Flatten(pieces[..n + 1]) == Framing.Flatten(pieces[..n]) + pieces[n]
  {
    ChunkParts(pieces, show, n);
    assert pieces[..n + 1] == pieces[..n] + [pieces[n]];
    FlattenAppend(pieces[..n], [pieces[n]]);
    assert Framing.Flatten([pieces[n]]) == pieces[n];
    assert pieces[..|pieces|] == pieces && pieces[..0] == [];
    assert n + 1 < |pieces| ==> |Framing.Flatten(pieces[..n + 1])| < |Framing.Flatten(pieces)|;
  }

  /** The chunks of a proper PDU are accepted one by one from an idle decoder and deliver its pieces. */
  lemma {:induction false} ChunksAreAccepted(p: Pdu, pieces: seq<seq<byte>>, show: seq<bool>, n: nat)
    requires p.remaining.None? && Proper(pieces) && n <= |pieces| == |show|
    ensures PushAll(p, ChunksOf(pieces, show, n)) == (AfterChunks(p, pieces, n), Some(Framing.Flatten(pieces[..n])))
    decreases n
  {
    if n == 0 {
      assert ChunksOf(pieces, show, n) == [] && pieces[..n] == [];
    } else {
      ChunksAreAccepted(p, pieces, show, n - 1);
      assert ChunksOf(pieces, show, n)[..n - 1] == ChunksOf(pieces, show, n - 1);
      NextChunk(p, pieces, show, n - 1);
    }
  }
}
