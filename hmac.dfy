/**
  HMAC as defined in RFC 2104, over a hash function given as a parameter.
  The modelled code uses it with SHA-256 (FIPS 180-4), whose block size is
  64 bytes; SHA-256 itself is not modelled.
 */
module Hmac {
  import opened ByteStrings

  const BlockSize: nat := 64
  const InnerPad: byte := 0x36 as char
  const OuterPad: byte := 0x5c as char

  function Zeros(n: nat): (r: Bytes)
    ensures |r| == n && forall i :: 0 <= i < n ==> r[i] == 0 as char
  {
    seq(n, _ => 0 as char)
  }

  /**
    The key as one block: a key longer than the block is hashed first, and
    the result is filled up with zero bytes to the block size.
   */
  function BlockKey(hash: Bytes -> Bytes, key: Bytes): (k: Bytes)
    ensures |k| == BlockSize
  {
    var short := if |key| > BlockSize then hash(key) else key;
    (short + Zeros(BlockSize))[..BlockSize]
  }

  function XorByte(a: byte, b: byte): byte
  {
    Chr(((Ord(a) as bv8) ^ (Ord(b) as bv8)) as nat)
  }

  function XorPad(k: Bytes, pad: byte): (r: Bytes)
    ensures |r| == |k|
  {
    seq(|k|, i requires 0 <= i < |k| => XorByte(k[i], pad))
  }

  /** H((K xor opad) ++ H((K xor ipad) ++ message)) */
  function Digest(hash: Bytes -> Bytes, key: Bytes, message: Bytes): Bytes
  {
    var k := BlockKey(hash, key);
    hash(XorPad(k, OuterPad) + hash(XorPad(k, InnerPad) + message))
  }
}
