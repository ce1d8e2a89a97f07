/** The engine's size limits, and how long a message is once written as JSON. */
module WireSizes {
  import opened Basics
  import opened PeerTypes

  const MaxPayloadBytes: nat := 256 * 1024
  const MaxMessageIdBytes: nat := 256
  const MaxFrameBytes: nat := MaxPayloadBytes + 64 * 1024

  function Digits(n: nat): nat {
    if n < 10 then 1 else 1 + Digits(n / 10)
  }

  /** Bytes one character of a JSON string takes once escaped. */
  function EscapedSize(b: byte): nat {
    if b == 0x22 || b == 0x5c then 2
    else if b < 0x20 then if b == 8 || b == 9 || b == 10 || b == 12 || b == 13 then 2 else 6
    else 1
  }

  function EscapedLength(s: Bytes): nat {
    if |s| == 0 then 0 else EscapedLength(s[..|s| - 1]) + EscapedSize(s[|s| - 1])
  }

  /** Length of `{"type":"message","message_id":"","payload_hash":"","payload":"","sender_endpoint_id":"","created_at_unix_ms":}`. */
  const FramePunctuation: nat := 111

  /** Digits of a time: it is a 64-bit number of milliseconds. */
  function TimeLength(t: nat): nat {
    if Digits(t) <= 20 then Digits(t) else 20
  }

  /** The frame an engine writes for a message. */
  function FrameLength(from: Endpoint, id: MessageId, payload: Bytes, createdAt: nat): nat {
    FramePunctuation + EscapedLength(id) + 64 + EscapedLength(payload) + EscapedLength(from) + TimeLength(createdAt)
  }
}
