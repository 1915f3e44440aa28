/** Chrome native messaging framing, shared by both helpers: a 4-byte
    little-endian unsigned length followed by that many bytes of UTF-8 JSON.
    The payload is opaque here. */
module Framing {
  import opened Common

  const TwoTo32: nat := 0x1_0000_0000

  /** 10 MiB, the ceiling both helpers check the length prefix against. */
  const MaxMessageLength: nat := 10 * 1024 * 1024

  /** The four bytes of a UInt32 in little-endian order: each byte is the
      low eight bits left after shifting the previous ones out. */
  function LengthPrefix(n: nat): (r: seq<byte>)
    requires n < TwoTo32
    ensures |r| == 4
  {
    [(n % 256) as byte, (n / 256 % 256) as byte, (n / 256 / 256 % 256) as byte, (n / 256 / 256 / 256) as byte]
  }

  /** The UInt32 a little-endian 4-byte header stands for. */
  function DecodeLength(b: seq<byte>): (n: nat)
    requires |b| == 4
    ensures n < TwoTo32
  {
    b[0] as nat + 256 * b[1] as nat + 65536 * b[2] as nat + 16777216 * b[3] as nat
  }

  lemma DecodeLengthPrefix(n: nat)
    requires n < TwoTo32
    ensures DecodeLength(LengthPrefix(n)) == n
  {
    var q1 := n / 256;
    var q2 := q1 / 256;
    var q3 := q2 / 256;
    assert n == n % 256 + 256 * q1;
    assert q1 == q1 % 256 + 256 * q2;
    assert q2 == q2 % 256 + 256 * q3;
  }

  /** Splitting n = low + 256 * high recovers low and high by % and /. */
  lemma DivModByte(n: nat, low: nat, high: nat)
    requires low < 256 && n == low + 256 * high
    ensures n % 256 == low && n / 256 == high
  {
  }

  lemma LengthPrefixOfDecoded(b: seq<byte>)
    requires |b| == 4
    ensures LengthPrefix(DecodeLength(b)) == b
  {
    var n := DecodeLength(b);
    var m1 := b[1] as nat + 256 * b[2] as nat + 65536 * b[3] as nat;
    var m2 := b[2] as nat + 256 * b[3] as nat;
    DivModByte(n, b[0] as nat, m1);
    DivModByte(m1, b[1] as nat, m2);
    DivModByte(m2, b[2] as nat, b[3] as nat);
  }

  /** One frame: header, then exactly the payload bytes. */
  function EncodeFrame(payload: seq<byte>): (r: seq<byte>)
    requires |payload| < TwoTo32
    ensures |r| == 4 + |payload|
    ensures DecodeLength(r[..4]) == |payload|
    ensures r[4..] == payload
  {
    DecodeLengthPrefix(|payload|);
    assert (LengthPrefix(|payload|) + payload)[..4] == LengthPrefix(|payload|);
    LengthPrefix(|payload|) + payload
  }
}
