/**
 * Go's `encoding/binary.LittleEndian`: a fixed-width little-endian encoding
 * of an unsigned integer, least significant byte first.
 */
module LittleEndian {
  import opened Bytes
  import opened Ints

  /** 256 to the power `n`: the number of values `n` bytes can hold. */
  function Pow256(n: nat): (p: nat)
    ensures p > 0
  {
    if n == 0 then 1 else 256 * Pow256(n - 1)
  }

  /** The `width` low-order bytes of `x`, least significant first. */
  function Encode(x: nat, width: nat): (r: bytes)
    ensures |r| == width
  {
    if width == 0 then [] else [x % 256] + Encode(x / 256, width - 1)
  }

  /** The unsigned integer that little-endian bytes denote. */
  function Decode(b: bytes): (x: nat)
    ensures x < Pow256(|b|)
  {
    if b == [] then 0 else b[0] + 256 * Decode(b[1..])
  }

  /** Decoding recovers every value that fits in the width. */
  lemma {:induction false} DecodeEncode(x: nat, width: nat)
    requires x < Pow256(width)
    ensures Decode(Encode(x, width)) == x
  {
    if width > 0 {
      DecodeEncode(x / 256, width - 1);
      assert Encode(x, width)[1..] == Encode(x / 256, width - 1);
    }
  }

  /** Encoding recovers every byte string: the encoding is a bijection at each width. */
  lemma {:induction false} EncodeDecode(b: bytes)
    ensures Encode(Decode(b), |b|) == b
  {
    if b != [] {
      EncodeDecode(b[1..]);
      var x := Decode(b);
      assert x % 256 == b[0] && x / 256 == Decode(b[1..]);
    }
  }

  lemma Pow256Widths()
    ensures Pow256(2) == 0x1_0000
    ensures Pow256(4) == 0x1_0000_0000
    ensures Pow256(8) == U64_LIMIT
  {
  }

  /** `binary.LittleEndian.PutUint16`. */
  function PutUint16(x: uint16): (r: bytes)
    ensures |r| == 2 && Decode(r) == x
  {
    Pow256Widths();
    DecodeEncode(x, 2);
    Encode(x, 2)
  }

  /** `binary.LittleEndian.PutUint32`. */
  function PutUint32(x: uint32): (r: bytes)
    ensures |r| == 4 && Decode(r) == x
  {
    Pow256Widths();
    DecodeEncode(x, 4);
    Encode(x, 4)
  }

  /** `binary.LittleEndian.PutUint64`. */
  function PutUint64(x: uint64): (r: bytes)
    ensures |r| == 8 && Decode(r) == x
  {
    Pow256Widths();
    DecodeEncode(x, 8);
    Encode(x, 8)
  }
}
