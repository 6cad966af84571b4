/** The envelopes between daemon and bridge. JSON values are represented by their text. */
module Protocol {
  import opened Wrappers

  type byte = b: nat | b < 256

  const PROTOCOL_VERSION: nat := 2
  const MAX_FRAME_BYTES: nat := 16 * 1024 * 1024

  /** Why the bridge refuses a message or could not serve it. */
  datatype Trouble = AttachmentBusy | IdMustIncrease | SpawnFailed | TransferBusy | Unexpected | Other(text: string)

  /** Why an attachment is closed. */
  datatype CloseReason = QueueSaturated | Because(text: string)

  datatype Message =
    | Hello(bundleId: string)
    | Ready(bundleId: string, bridgeVersion: string)
    | Ping
    | Pong
    | Open(attachmentId: nat)
    | Opened(attachmentId: nat, runtimeGeneration: nat)
    | Mcp(attachmentId: nat, runtimeGeneration: nat, message: string)
    | Close(attachmentId: nat, reason: CloseReason)
    | Closed(attachmentId: nat, reason: CloseReason)
    | FileTransfer(request: string)
    | FileTransferResult(response: string)
    | Failure(trouble: Trouble)

  datatype Envelope = Envelope(version: nat, generation: nat, controlId: nat, message: Message)

  /** The JSON text of an envelope and back. */
  datatype Codec = Codec(serialize: Envelope -> seq<byte>, parse: seq<byte> -> Option<Envelope>)

  ghost predicate Faithful(codec: Codec) {
    forall e :: codec.serialize(e) != [] && codec.parse(codec.serialize(e)) == Some(e)
  }

  function FromLe(bytes: seq<byte>): nat
    requires |bytes| == 4
  {
    bytes[0] as nat + 0x100 * (bytes[1] as nat) + 0x1_0000 * (bytes[2] as nat) + 0x100_0000 * (bytes[3] as nat)
  }

  function ToLe(n: nat): seq<byte> {
    [n % 0x100, n / 0x100 % 0x100, n / 0x1_0000 % 0x100, n / 0x100_0000 % 0x100]
  }

  /** A 32-bit number survives its four little-endian bytes. */
  lemma LeRoundTrip(n: nat)
    requires n < 0x1_0000_0000
    ensures FromLe(ToLe(n)) == n
    ensures ToLe(n)[0] == n % 0x100 && ToLe(n)[3] == n / 0x100_0000
  {
    assert n / 0x1_0000 == n / 0x100 / 0x100;
    assert n / 0x100_0000 == n / 0x1_0000 / 0x100;
  }
}
