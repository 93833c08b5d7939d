/** Bytes and big-endian port numbers. */
module Bytes {

  type byte = x: int | 0 <= x < 256

  /** The two bytes of a port as the wire carries them; a wider number is truncated. */
  function PortBytes(port: nat): (b: seq<byte>)
    ensures |b| == 2
  {
    [port / 256 % 256, port % 256]
  }

  function PortFrom(high: byte, low: byte): nat {
    256 * high + low
  }

  lemma PortRoundTrip(port: nat)
    requires port < 65536
    ensures PortFrom(PortBytes(port)[0], PortBytes(port)[1]) == port
  {
  }

  /** The bytes of an ASCII text. */
  function Ascii(s: string): seq<byte> {
    seq(|s|, i requires 0 <= i < |s| => s[i] as int % 256)
  }
}
