/** Octets as they arrive from the CH559 bridge, and the two's-complement
    reading the mouse decoder applies to its motion and wheel bytes. */
module Bytes {

  /** One unsigned byte of a Python `bytes` value. */
  type Byte = b: int | 0 <= b < 0x100

  /** Python's `s[0:n] == sig` for a signature of length n: a slice of a
      shorter buffer is shorter than `sig`, so it never compares equal. */
  predicate StartsWith(s: seq<Byte>, sig: seq<Byte>)
  {
    |sig| <= |s| && s[..|sig|] == sig
  }

  /** Reduction of an integer to the byte that stores it (two's complement). */
  function ToUnsigned8(v: int): (b: Byte)
    ensures (v - b) % 0x100 == 0
  {
    v % 0x100
  }

  /** The mouse decoder's sign conversion: a raw byte of 0x80 or more stands
      for `raw - 256`. The result is the unique value of [-128, 127] that the
      byte encodes. */
  function ToSigned8(b: Byte): (v: int)
    ensures -0x80 <= v < 0x80
    ensures v < 0 <==> b >= 0x80
    ensures ToUnsigned8(v) == b
  {
    if b >= 0x80 then b - 0x100 else b
  }

  /** Reading back a value of [-128, 127] from its byte gives the value. */
  lemma SignedRoundTrip(v: int)
    requires -0x80 <= v < 0x80
    ensures ToSigned8(ToUnsigned8(v)) == v
  {
  }
}
