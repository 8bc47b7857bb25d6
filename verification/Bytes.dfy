/**
  Bytes on the wire and the fixed-width big-endian integers that the protocol headers are
  made of.
 */
module Bytes {

  type byte = x: int | 0 <= x < 256

  type bytes = seq<byte>

  datatype Option<+T> = None | Some(value: T)

  /** Go's `int16(n)`: the value modulo 2^16 in two's complement. */
  function ToInt16(n: int): (r: int)
    ensures -32768 <= r < 32768
    ensures -32768 <= n < 32768 ==> r == n
  {
    (n + 32768) % 65536 - 32768
  }

  function PackUint16(n: nat): (b: bytes)
    requires n < 0x1_0000
    ensures |b| == 2
  {
    [n / 256, n % 256]
  }

  function UnpackUint16(b: bytes): (n: nat)
    requires |b| == 2
    ensures n < 0x1_0000 && PackUint16(n) == b
  {
    (b[0] as int) * 256 + (b[1] as int)
  }

  function PackInt16(n: int): (b: bytes)
    requires -32768 <= n < 32768
    ensures |b| == 2
  {
    PackUint16(if n < 0 then n + 0x1_0000 else n)
  }

  function UnpackInt16(b: bytes): (n: int)
    requires |b| == 2
    ensures -32768 <= n < 32768 && PackInt16(n) == b
  {
    var u := UnpackUint16(b);
    if u < 32768 then u else u - 0x1_0000
  }

  function PackUint32(n: nat): (b: bytes)
    requires n < 0x1_0000_0000
    ensures |b| == 4
  {
    PackUint16(n / 0x1_0000) + PackUint16(n % 0x1_0000)
  }

  function UnpackUint32(b: bytes): (n: nat)
    requires |b| == 4
    ensures n < 0x1_0000_0000 && PackUint32(n) == b
  {
    var n := UnpackUint16(b[..2]) * 0x1_0000 + UnpackUint16(b[2..]);
    assert b == b[..2] + b[2..];
    n
  }

  lemma Int16RoundTrip(n: int)
    requires -32768 <= n < 32768
    ensures UnpackInt16(PackInt16(n)) == n
  {
  }

  lemma Uint16RoundTrip(n: nat)
    requires n < 0x1_0000
    ensures UnpackUint16(PackUint16(n)) == n
  {
  }

  lemma Uint32RoundTrip(n: nat)
    requires n < 0x1_0000_0000
    ensures UnpackUint32(PackUint32(n)) == n
  {
    var b := PackUint32(n);
    assert b[..2] == PackUint16(n / 0x1_0000) && b[2..] == PackUint16(n % 0x1_0000);
  }
}
