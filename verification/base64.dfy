/**
 * The base 64 encoding of section 4 of RFC 4648 (standard alphabet, `=`
 * padding), as Go's `base64.StdEncoding` implements it. `Encode` is
 * `EncodeToString`. `Decode` is `DecodeString`: it skips carriage returns and
 * line feeds anywhere in the input, requires whole padded quanta, and (the
 * encoding not being `Strict`) ignores the unused low bits of a final quantum.
 */
module Base64 {
  import opened Bytes
  import opened Results

  const Pad: byte := 0x3D  // '='
  const CR: byte := 0x0D
  const LF: byte := 0x0A

  /** The alphabet character of a 6-bit value (Table 1 of RFC 4648). */
  function Char(v: int): (c: byte)
    requires 0 <= v < 64
    ensures Value(c) == Some(v)
  {
    if v < 26 then 0x41 + v             // 'A'..'Z'
    else if v < 52 then 0x61 + (v - 26) // 'a'..'z'
    else if v < 62 then 0x30 + (v - 52) // '0'..'9'
    else if v == 62 then 0x2B           // '+'
    else 0x2F                           // '/'
  }

  /** The 6-bit value of an alphabet character; `None` for every other byte. */
  function Value(c: byte): (v: Option<int>)
    ensures v.Some? ==> 0 <= v.value < 64
  {
    if 0x41 <= c <= 0x5A then Some(c - 0x41)
    else if 0x61 <= c <= 0x7A then Some(c - 0x61 + 26)
    else if 0x30 <= c <= 0x39 then Some(c - 0x30 + 52)
    else if c == 0x2B then Some(62)
    else if c == 0x2F then Some(63)
    else None
  }

  predicate InAlphabet(c: byte) {
    Value(c).Some?
  }

  /** The alphabet and the padding character are the only bytes an encoding holds. */
  predicate IsEncodingByte(c: byte) {
    InAlphabet(c) || c == Pad
  }

  /** The four characters of a full quantum of three bytes. */
  function Quantum(x: byte, y: byte, z: byte): (q: bytes)
    ensures |q| == 4 && forall i | 0 <= i < 4 :: InAlphabet(q[i])
  {
    [Char(x / 4), Char(x % 4 * 16 + y / 16), Char(y % 16 * 4 + z / 64), Char(z % 64)]
  }

  /** The final quantum of one byte, padded with `==`. */
  function PadTwo(x: byte): (q: bytes)
    ensures |q| == 4 && forall i | 0 <= i < 4 :: IsEncodingByte(q[i])
  {
    [Char(x / 4), Char(x % 4 * 16), Pad, Pad]
  }

  /** The final quantum of two bytes, padded with `=`. */
  function PadOne(x: byte, y: byte): (q: bytes)
    ensures |q| == 4 && forall i | 0 <= i < 4 :: IsEncodingByte(q[i])
  {
    [Char(x / 4), Char(x % 4 * 16 + y / 16), Char(y % 16 * 4), Pad]
  }

  /** `base64.StdEncoding.EncodeToString`. */
  function Encode(b: bytes): (r: bytes)
    ensures |r| == 4 * ((|b| + 2) / 3)
    ensures forall i | 0 <= i < |r| :: IsEncodingByte(r[i])
    decreases |b|
  {
    if |b| == 0 then []
    else if |b| == 1 then PadTwo(b[0])
    else if |b| == 2 then PadOne(b[0], b[1])
    else
      var q, rest := Quantum(b[0], b[1], b[2]), Encode(b[3..]);
      assert forall i | 4 <= i < |q + rest| :: (q + rest)[i] == rest[i - 4];
      q + rest
  }

  /** The input without its carriage returns and line feeds, which the decoder skips. */
  function StripNewlines(s: bytes): (r: bytes)
    ensures |r| <= |s|
    ensures forall i | 0 <= i < |r| :: r[i] != CR && r[i] != LF
    decreases |s|
  {
    if s == [] then []
    else if s[0] == CR || s[0] == LF then StripNewlines(s[1..])
    else [s[0]] + StripNewlines(s[1..])
  }

  /** Four alphabet characters give three bytes. */
  function DecodeFull(c0: byte, c1: byte, c2: byte, c3: byte): Option<bytes> {
    if InAlphabet(c0) && InAlphabet(c1) && InAlphabet(c2) && InAlphabet(c3) then
      var v0, v1, v2, v3 := Value(c0).value, Value(c1).value, Value(c2).value, Value(c3).value;
      Some([v0 * 4 + v1 / 16, v1 % 16 * 16 + v2 / 4, v2 % 4 * 64 + v3])
    else None
  }

  /** The last quantum may end in `==` (one byte) or `=` (two bytes). */
  function DecodeLast(c0: byte, c1: byte, c2: byte, c3: byte): Option<bytes> {
    if !InAlphabet(c0) || !InAlphabet(c1) then None
    else
      var v0, v1 := Value(c0).value, Value(c1).value;
      if c2 == Pad then
        if c3 == Pad then Some([v0 * 4 + v1 / 16]) else None
      else if !InAlphabet(c2) then None
      else if c3 == Pad then
        var v2 := Value(c2).value;
        Some([v0 * 4 + v1 / 16, v1 % 16 * 16 + v2 / 4])
      else DecodeFull(c0, c1, c2, c3)
  }

  /** Whole quanta, padding allowed only in the last one. */
  function DecodeQuanta(s: bytes): (r: Option<bytes>)
    ensures r.Some? ==> |s| % 4 == 0 && |r.value| <= |s| / 4 * 3
    ensures r.Some? ==> |s| / 4 * 3 - 2 <= |r.value|
    decreases |s|
  {
    if |s| == 0 then Some([])
    else if |s| < 4 then None
    else if |s| == 4 then DecodeLast(s[0], s[1], s[2], s[3])
    else
      match DecodeFull(s[0], s[1], s[2], s[3])
      case None => None
      case Some(q) =>
        match DecodeQuanta(s[4..])
        case None => None
        case Some(rest) => Some(q + rest)
  }

  /** `base64.StdEncoding.DecodeString`; `None` is its `CorruptInputError`. */
  function Decode(s: bytes): (r: Option<bytes>)
    ensures r.Some? ==> |r.value| <= |s| / 4 * 3
    ensures (forall i | 0 <= i < |s| :: s[i] != CR && s[i] != LF) && |s| % 4 != 0 ==> r.None?
  {
    StripNewlinesNoopIf(s);
    DecodeQuanta(StripNewlines(s))
  }

  /** `StripNewlinesNoop`, for any input. */
  lemma StripNewlinesNoopIf(s: bytes)
    ensures (forall i | 0 <= i < |s| :: s[i] != CR && s[i] != LF) ==> StripNewlines(s) == s
  {
    if forall i | 0 <= i < |s| :: s[i] != CR && s[i] != LF {
      StripNewlinesNoop(s);
    }
  }

  lemma {:induction false} StripNewlinesNoop(s: bytes)
    requires forall i | 0 <= i < |s| :: s[i] != CR && s[i] != LF
    ensures StripNewlines(s) == s
    decreases |s|
  {
    if s != [] {
      StripNewlinesNoop(s[1..]);
      assert s == [s[0]] + s[1..];
    }
  }

  /** A full quantum of three bytes decodes back to them. */
  lemma FullQuantum(x: byte, y: byte, z: byte)
    ensures var q := Quantum(x, y, z); DecodeFull(q[0], q[1], q[2], q[3]) == Some([x, y, z])
  {
    var v1 := x % 4 * 16 + y / 16;
    var v2 := y % 16 * 4 + z / 64;
    assert v1 / 16 == x % 4 && v1 % 16 == y / 16;
    assert v2 / 4 == y % 16 && v2 % 4 == z / 64;
  }

  /** A final quantum ending in `==` decodes back to its one byte. */
  lemma OneByteQuantum(x: byte)
    ensures var q := PadTwo(x); DecodeLast(q[0], q[1], q[2], q[3]) == Some([x])
  {
    assert x / 4 * 4 + x % 4 * 16 / 16 == x;
  }

  /** A final quantum ending in `=` decodes back to its two bytes. */
  lemma TwoByteQuantum(x: byte, y: byte)
    ensures var q := PadOne(x, y); DecodeLast(q[0], q[1], q[2], q[3]) == Some([x, y])
  {
    var v1 := x % 4 * 16 + y / 16;
    assert v1 / 16 == x % 4 && v1 % 16 == y / 16;
    assert y % 16 * 4 / 4 == y % 16;
  }

  /** Decoding a full quantum followed by more quanta. */
  lemma DecodeQuantaCons(q: bytes, rest: bytes, out: bytes, tail: bytes)
    requires |q| == 4 && rest != []
    requires DecodeFull(q[0], q[1], q[2], q[3]) == Some(out)
    requires DecodeQuanta(rest) == Some(tail)
    ensures DecodeQuanta(q + rest) == Some(out + tail)
  {
    var s := q + rest;
    assert s[0] == q[0] && s[1] == q[1] && s[2] == q[2] && s[3] == q[3];
    assert s[4..] == rest;
  }

  lemma {:induction false} DecodeQuantaEncode(b: bytes)
    ensures DecodeQuanta(Encode(b)) == Some(b)
    decreases |b|
  {
    if |b| == 1 {
      OneByteQuantum(b[0]);
      assert [b[0]] == b;
    } else if |b| == 2 {
      TwoByteQuantum(b[0], b[1]);
      assert [b[0], b[1]] == b;
    } else if |b| >= 3 {
      var q := Quantum(b[0], b[1], b[2]);
      FullQuantum(b[0], b[1], b[2]);
      assert [b[0], b[1], b[2]] == b[..3];
      if |b| == 3 {
        assert Encode(b) == q + [];
        assert q + [] == q;
        assert q[2] != Pad && q[3] != Pad;
        assert b[..3] == b;
      } else {
        DecodeQuantaEncode(b[3..]);
        DecodeQuantaCons(q, Encode(b[3..]), b[..3], b[3..]);
        assert b[..3] + b[3..] == b;
      }
    }
  }

  /** Round trip: decoding an encoding gives back the original bytes. */
  lemma DecodeEncode(b: bytes)
    ensures Decode(Encode(b)) == Some(b)
  {
    StripNewlinesNoop(Encode(b));
    DecodeQuantaEncode(b);
  }
}
