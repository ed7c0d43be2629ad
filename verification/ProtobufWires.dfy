/** The wire encodings of nanopb: varints, zigzag numbers and tags. */
module ProtobufWires {
  import opened InternalKeys
  import opened Coding

  const INT32_MIN: int := -0x8000_0000
  const INT64_MIN: int := -0x8000_0000_0000_0000

  /** `pb_encode_varint`: the loop over a ten-byte buffer. */
  method EncodeVarintLoop(value: Word64) returns (buffer: Bytes)
    ensures buffer == EncodeVarint(value) && |buffer| <= 10
  {
    Power128Bounds();
    VarintLength(value, 10);
    if value <= 0x7f {
      return [value];
    }
    buffer := [];
    var v: nat := value;
    assert [] + EncodeVarint(value) == EncodeVarint(value);
    while v > 0
      invariant v == 0 ==> EndsVarint(buffer, EncodeVarint(value))
      invariant v > 0 ==> buffer + EncodeVarint(v) == EncodeVarint(value)
    {
      OneDigit(buffer, v, EncodeVarint(value));
      buffer := buffer + [v % 128 + 128];
      v := v / 128;
    }
    buffer := buffer[|buffer| - 1 := buffer[|buffer| - 1] - 0x80];
  }

  /** All digits are written, the last one still with its top bit set. */
  predicate EndsVarint(buffer: Bytes, whole: Bytes) {
    && buffer != []
    && buffer[|buffer| - 1] >= 0x80
    && buffer[|buffer| - 1 := buffer[|buffer| - 1] - 0x80] == whole
  }

  lemma OneDigit(before: Bytes, v: nat, whole: Bytes)
    requires v > 0 && before + EncodeVarint(v) == whole
    ensures v < 128 ==> EndsVarint(before + [v % 128 + 128], whole)
    ensures v >= 128 ==> (before + [v % 128 + 128]) + EncodeVarint(v / 128) == whole
  {
    if v < 128 {
      assert EncodeVarint(v) == [v];
    } else {
      assert before + ([v % 128 + 128] + EncodeVarint(v / 128)) == (before + [v % 128 + 128]) + EncodeVarint(v / 128);
    }
  }

  /** `pb_decode_varint32` after `k` bytes: what does not fit 32 bits is an error,
      except zeros and the sign extension of a negative number. */
  function Varint32Rest(b: Bytes, k: nat, result: Word32): (r: Option<Decoded<Word32>>)
    ensures r.Some? ==> |r.value.rest| < |b|
  {
    if b == [] then None
    else
      var byte: int := b[0];
      var signExtension := if k < 9 then 0xff else 0x01;
      if k >= 5 && byte % 128 != 0 && (result < 0x8000_0000 || byte != signExtension) then None
      else
        var result' := if k >= 5 then result else (result + byte % 128 * Power128(k)) % WORD32;
        if byte >= 128 then Varint32Rest(b[1..], k + 1, result')
        else if k + 1 == 5 && byte / 16 % 8 != 0 then None
        else Some(Decoded(result', b[1..]))
  }

  function DecodeVarint32(b: Bytes): (r: Option<Decoded<Word32>>)
    ensures r.Some? ==> |r.value.rest| < |b|
  {
    if b == [] then None
    else if b[0] < 128 then Some(Decoded(b[0], b[1..]))
    else Varint32Rest(b[1..], 1, b[0] % 128)
  }

  function DecodeVarint64(b: Bytes): (r: Option<Decoded<Word64>>)
    ensures r.Some? ==> |r.value.rest| < |b|
  {
    VarintConsumes(b, 10);
    GetVarint64(b)
  }

  lemma PowersOf128()
    ensures Power128(1) == 128 && Power128(2) == 0x4000 && Power128(3) == 0x20_0000 && Power128(4) == 0x1000_0000
  {
    assert Power128(2) == 128 * (128 * Power128(0));
    assert Power128(4) == 128 * (128 * Power128(2));
  }

  lemma {:induction false} Varint32RestRoundTrip(h: nat, k: nat, result: nat, rest: Bytes)
    requires 1 <= k <= 4 && 0 < h && result < Power128(k) && result + Power128(k) * h < WORD32
    ensures Varint32Rest(EncodeVarint(h) + rest, k, result) == Some(Decoded(result + Power128(k) * h, rest))
    decreases h
  {
    var b := EncodeVarint(h) + rest;
    FirstByte(h, rest, b);
    if h < 128 {
      LastDigit(b, h, k, result);
    } else {
      NextDigit(h, k, result);
      MoreDigits(b, h % 128, k, result);
      Varint32RestRoundTrip(h / 128, k + 1, result + h % 128 * Power128(k), rest);
    }
  }

  lemma LastDigit(b: Bytes, h: nat, k: nat, result: nat)
    requires b != [] && b[0] == h < 128 && 1 <= k <= 4 && result + Power128(k) * h < WORD32
    ensures Varint32Rest(b, k, result) == Some(Decoded(result + Power128(k) * h, b[1..]))
  {
    PowersOf128();
    SmallModulo(result + h * Power128(k), WORD32);
    assert k == 4 ==> h < 16;
  }

  lemma MoreDigits(b: Bytes, d: nat, k: nat, result: nat)
    requires b != [] && d < 128 && b[0] == d + 128 && 1 <= k <= 4 && result + d * Power128(k) < WORD32
    ensures Varint32Rest(b, k, result) == Varint32Rest(b[1..], k + 1, result + d * Power128(k))
  {
    SmallModulo(result + d * Power128(k), WORD32);
    assert b[0] as int % 128 == d;
  }

  lemma NextDigit(h: nat, k: nat, result: nat)
    requires 1 <= k <= 4 && h >= 128 && result < Power128(k) && result + Power128(k) * h < WORD32
    ensures var next := result + h % 128 * Power128(k);
      k < 4 && next < Power128(k + 1) && next + Power128(k + 1) * (h / 128) == result + Power128(k) * h
  {
    PowersOf128();
    var p, q, d := Power128(k), h / 128, h % 128;
    assert h == 128 * q + d;
    assert Power128(k + 1) == 128 * p;
    Distribute(p, q, d);
  }

  lemma Distribute(p: nat, q: nat, d: nat)
    requires d < 128
    ensures p * (128 * q + d) == 128 * p * q + d * p
    ensures d * p <= 127 * p
  {
  }

  /** Reading back a 32-bit number that was written. */
  lemma Varint32RoundTrips(v: Word32, rest: Bytes)
    ensures DecodeVarint32(EncodeVarint(v) + rest) == Some(Decoded(v, rest))
  {
    if v >= 128 {
      PowersOf128();
      Varint32RestRoundTrip(v / 128, 1, v % 128, rest);
    }
    FirstByte(v, rest, EncodeVarint(v) + rest);
  }

  lemma FirstByte(v: nat, rest: Bytes, b: Bytes)
    requires b == EncodeVarint(v) + rest
    ensures b != [] && b[0] == if v < 128 then v else v % 128 + 128
    ensures b[1..] == if v < 128 then rest else EncodeVarint(v / 128) + rest
  {
    var digit := if v < 128 then v else v % 128 + 128;
    var more := if v < 128 then [] else EncodeVarint(v / 128);
    assert EncodeVarint(v) == [digit] + more;
    FirstOf(digit, more, rest);
  }

  lemma FirstOf(digit: Byte, more: Bytes, rest: Bytes)
    ensures ([digit] + more + rest)[0] == digit && ([digit] + more + rest)[1..] == more + rest
    ensures [] + rest == rest
  {
  }

  // ---------------------------------------------------------------------
  // Signed numbers
  // ---------------------------------------------------------------------

  type Int64 = n: int | INT64_MIN <= n < -INT64_MIN

  /** Two's complement. */
  function ToUnsigned(n: Int64): Word64 {
    if n < 0 then n + WORD64 else n
  }

  function ToSigned(v: Word64): Int64 {
    if v >= -INT64_MIN then v - WORD64 else v
  }

  /** A 64-bit number cut to 32 bits and sign-extended. */
  function ToSigned32(v: Word64): Int64 {
    var low := v % WORD32;
    if low >= -INT32_MIN then low - WORD32 else low
  }

  /** `pb_encode_svarint`: shift left, and complement negative numbers. */
  function ZigZag(n: Int64): Word64 {
    var shifted := ToUnsigned(n) * 2 % WORD64;
    if n < 0 then WORD64 - 1 - shifted else shifted
  }

  function UnZigZag(v: Word64): Int64 {
    if v % 2 == 1 then ToSigned(WORD64 - 1 - v / 2) else v / 2
  }

  /** Small magnitudes get small codes, and decoding inverts encoding. */
  lemma ZigZagRoundTrip(n: Int64)
    ensures ZigZag(n) == if n < 0 then -2 * n - 1 else 2 * n
    ensures UnZigZag(ZigZag(n)) == n
  {
    if n < 0 {
      assert (n + WORD64) * 2 == WORD64 + (2 * n + WORD64);
    }
  }
}
