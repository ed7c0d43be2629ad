/** Fixed-width, variable-length and length-prefixed encodings of integers. */
module Coding {
  import opened InternalKeys

  const WORD32: nat := 0x1_0000_0000
  const WORD64: nat := 0x1_0000_0000_0000_0000

  type Word32 = x: int | 0 <= x < WORD32
  type Word64 = x: int | 0 <= x < WORD64

  /** A decoded value and the input that follows it. */
  datatype Decoded<+T> = Decoded(value: T, rest: Bytes)

  // ---------------------------------------------------------------------
  // Fixed-width, little-endian
  // ---------------------------------------------------------------------

  function EncodeFixed32(v: Word32): (r: Bytes)
    ensures |r| == 4
  {
    [v % 256, v / 256 % 256, v / 65536 % 256, v / 16777216]
  }

  function DecodeFixed32(b: Bytes): Word32
    requires |b| >= 4
  {
    b[0] as int + 256 * b[1] as int + 65536 * b[2] as int + 16777216 * b[3] as int
  }

  lemma Digits(v: int)
    ensures v == v % 256 + 256 * (v / 256 % 256) + 65536 * (v / 65536 % 256) + 16777216 * (v / 16777216)
  {
    var a := v / 256;
    var b := a / 256;
    assert b == v / 65536 && b / 256 == v / 16777216;
  }

  lemma Fixed32RoundTrip(v: Word32, rest: Bytes)
    ensures DecodeFixed32(EncodeFixed32(v) + rest) == v
  {
    var code := EncodeFixed32(v);
    assert (code + rest)[0] == code[0] && (code + rest)[1] == code[1];
    assert (code + rest)[2] == code[2] && (code + rest)[3] == code[3];
    Digits(v);
  }

  function EncodeFixed64(v: Word64): (r: Bytes)
    ensures |r| == 8
  {
    EncodeFixed32(v % WORD32) + EncodeFixed32(v / WORD32)
  }

  function DecodeFixed64(b: Bytes): Word64
    requires |b| >= 8
  {
    DecodeFixed32(b) + WORD32 * DecodeFixed32(b[4..])
  }

  lemma Fixed64RoundTrip(v: Word64, rest: Bytes)
    ensures DecodeFixed64(EncodeFixed64(v) + rest) == v
  {
    var low, high := EncodeFixed32(v % WORD32), EncodeFixed32(v / WORD32);
    assert (low + high) + rest == low + (high + rest);
    assert (low + (high + rest))[4..] == high + rest;
    Fixed32RoundTrip(v % WORD32, high + rest);
    Fixed32RoundTrip(v / WORD32, rest);
  }

  /** The number that bytes stand for, least significant byte first. */
  function LittleEndian(b: Bytes): nat {
    if b == [] then 0 else b[0] as int + 256 * LittleEndian(b[1..])
  }

  lemma LittleEndian4(a: Byte, b: Byte, c: Byte, d: Byte)
    ensures LittleEndian([a, b, c, d]) == a as int + 256 * b as int + 65536 * c as int + 16777216 * d as int
  {
    FirstOctet(a, [b, c, d]);
    FirstOctet(b, [c, d]);
    FirstOctet(c, [d]);
    FirstOctet(d, []);
  }

  lemma FirstOctet(a: Byte, rest: Bytes)
    ensures [a] + rest != [] && LittleEndian([a] + rest) == a as int + 256 * LittleEndian(rest)
  {
    assert ([a] + rest)[1..] == rest;
  }

  lemma Fixed32IsLittleEndian(v: Word32)
    ensures LittleEndian(EncodeFixed32(v)) == v
  {
    LittleEndian4(v % 256, v / 256 % 256, v / 65536 % 256, v / 16777216);
    Digits(v);
  }

  lemma {:induction false} LittleEndianAppend(a: Bytes, b: Bytes)
    requires |a| == 4
    ensures LittleEndian(a + b) == LittleEndian(a) + 4294967296 * LittleEndian(b)
  {
    assert a == [a[0], a[1], a[2], a[3]];
    LittleEndian4(a[0], a[1], a[2], a[3]);
    assert a + b == [a[0]] + ([a[1]] + ([a[2]] + ([a[3]] + b)));
    FirstOctet(a[0], [a[1]] + ([a[2]] + ([a[3]] + b)));
    FirstOctet(a[1], [a[2]] + ([a[3]] + b));
    FirstOctet(a[2], [a[3]] + b);
    FirstOctet(a[3], b);
  }

  lemma Fixed64IsLittleEndian(v: Word64)
    ensures LittleEndian(EncodeFixed64(v)) == v
  {
    LittleEndianAppend(EncodeFixed32(v % WORD32), EncodeFixed32(v / WORD32));
    Fixed32IsLittleEndian(v % WORD32);
    Fixed32IsLittleEndian(v / WORD32);
  }

  /** A list of fixed-width numbers. */
  function FixedList(xs: seq<Word32>): (r: Bytes)
    ensures |r| == 4 * |xs|
  {
    if xs == [] then [] else FixedList(xs[..|xs| - 1]) + EncodeFixed32(xs[|xs| - 1])
  }

  lemma {:induction false} FixedListAt(xs: seq<Word32>, j: nat, rest: Bytes)
    requires j < |xs|
    ensures DecodeFixed32((FixedList(xs) + rest)[4 * j..]) == xs[j]
  {
    var n := |xs| - 1;
    var init, last := FixedList(xs[..n]), EncodeFixed32(xs[n]);
    assert (init + last) + rest == init + (last + rest);
    if j == n {
      assert (init + (last + rest))[4 * n..] == last + rest;
      Fixed32RoundTrip(xs[n], rest);
    } else {
      FixedListAt(xs[..n], j, last + rest);
    }
  }

  function Zeros(n: nat): (r: Bytes)
    ensures |r| == n
  {
    seq(n, _ => 0)
  }

  // ---------------------------------------------------------------------
  // Base-128 varints
  // ---------------------------------------------------------------------

  /** Seven bits a byte, least significant first; all but the last byte have
      their top bit set. */
  function EncodeVarint(v: nat): (r: Bytes)
    ensures r != []
  {
    if v < 128 then [v] else [v % 128 + 128] + EncodeVarint(v / 128)
  }

  /** The number in groups of seven bits, least significant group first. */
  function Groups(b: Bytes): nat {
    if b == [] then 0 else b[0] as int % 128 + 128 * Groups(b[1..])
  }

  /** A base-128 varint: 128 or more in every byte but the last, no group more than needed. */
  predicate IsVarint(b: Bytes, v: int) {
    && b != [] && b[|b| - 1] < 128 && (|b| > 1 ==> b[|b| - 1] != 0)
    && (forall i :: 0 <= i < |b| - 1 ==> b[i] >= 128)
    && Groups(b) == v
  }

  lemma {:induction false} VarintIsBase128(v: nat)
    ensures IsVarint(EncodeVarint(v), v)
  {
    if v < 128 {
      assert [v][1..] == [];
    } else {
      VarintIsBase128(v / 128);
      var b := EncodeVarint(v);
      assert b[1..] == EncodeVarint(v / 128);
      assert forall i :: 1 <= i < |b| ==> b[i] == b[1..][i - 1];
    }
  }

  /** The unrolled form of `EncodeVarint32`. */
  function EncodeVarint32(v: Word32): Bytes {
    if v < 0x80 then [v]
    else if v < 0x4000 then [v % 128 + 128, v / 128]
    else if v < 0x20_0000 then [v % 128 + 128, v / 128 % 128 + 128, v / 0x4000]
    else if v < 0x1000_0000 then [v % 128 + 128, v / 128 % 128 + 128, v / 0x4000 % 128 + 128, v / 0x20_0000]
    else [v % 128 + 128, v / 128 % 128 + 128, v / 0x4000 % 128 + 128, v / 0x20_0000 % 128 + 128, v / 0x1000_0000]
  }

  /** The number in at most `maxBytes` leading bytes, and what follows. */
  function DecodeVarint(b: Bytes, maxBytes: nat): Option<Decoded<nat>> {
    if maxBytes == 0 || b == [] then None
    else if b[0] < 128 then Some(Decoded(b[0], b[1..]))
    else
      match DecodeVarint(b[1..], maxBytes - 1)
      case None => None
      case Some(Decoded(v, rest)) => Some(Decoded(b[0] % 128 + 128 * v, rest))
  }

  /** Decoding takes at least one byte. */
  lemma {:induction false} VarintConsumes(b: Bytes, maxBytes: nat)
    ensures var r := DecodeVarint(b, maxBytes); r.Some? ==> |r.value.rest| < |b|
    decreases maxBytes
  {
    if maxBytes > 0 && b != [] && b[0] >= 128 {
      VarintConsumes(b[1..], maxBytes - 1);
    }
  }

  /** A fixed-width accumulator keeps the number modulo its range. */
  function GetVarint(b: Bytes, maxBytes: nat, range: nat): (r: Option<Decoded<nat>>)
    requires range > 0
    ensures r.Some? ==> r.value.value < range
  {
    match DecodeVarint(b, maxBytes)
    case None => None
    case Some(Decoded(v, rest)) => Some(Decoded(v % range, rest))
  }

  function GetVarint32(b: Bytes): Option<Decoded<Word32>> {
    GetVarint(b, 5, WORD32)
  }

  function GetVarint64(b: Bytes): Option<Decoded<Word64>> {
    GetVarint(b, 10, WORD64)
  }

  /** 128^n - 1 is the largest number of n digits. */
  function Power128(n: nat): nat {
    if n == 0 then 1 else 128 * Power128(n - 1)
  }

  /** Decoding what was encoded gives the number back and leaves the rest. */
  lemma {:induction false} VarintRoundTrip(v: nat, rest: Bytes, maxBytes: nat)
    requires maxBytes > 0 && v < Power128(maxBytes)
    ensures DecodeVarint(EncodeVarint(v) + rest, maxBytes) == Some(Decoded(v, rest))
  {
    var b := EncodeVarint(v) + rest;
    if v < 128 {
      assert b[0] == v && b[1..] == rest;
    } else {
      assert b[0] == v % 128 + 128 && b[1..] == EncodeVarint(v / 128) + rest;
      VarintRoundTrip(v / 128, rest, maxBytes - 1);
    }
  }

  lemma {:induction false} VarintLength(v: nat, n: nat)
    requires n > 0 && v < Power128(n)
    ensures |EncodeVarint(v)| <= n
  {
    if v >= 128 {
      VarintLength(v / 128, n - 1);
    }
  }

  lemma SmallModulo(v: nat, range: nat)
    requires v < range
    ensures v % range == v
  {
  }

  lemma GetVarintRoundTrip(v: nat, rest: Bytes, maxBytes: nat, range: nat)
    requires maxBytes > 0 && v < range && range <= Power128(maxBytes)
    ensures GetVarint(EncodeVarint(v) + rest, maxBytes, range) == Some(Decoded(v, rest))
  {
    SmallModulo(v, range);
    VarintRoundTrip(v, rest, maxBytes);
  }

  lemma {:induction false} Varint32IsVarint(v: Word32)
    ensures EncodeVarint32(v) == EncodeVarint(v)
  {
    var v1 := v / 128;
    var v2 := v1 / 128;
    var v3 := v2 / 128;
    var v4 := v3 / 128;
    assert v2 == v / 0x4000 && v3 == v / 0x20_0000 && v4 == v / 0x1000_0000;
    assert v1 >= 128 ==> EncodeVarint(v1) == [v1 % 128 + 128] + EncodeVarint(v2);
    assert v2 >= 128 ==> EncodeVarint(v2) == [v2 % 128 + 128] + EncodeVarint(v3);
    assert v3 >= 128 ==> EncodeVarint(v3) == [v3 % 128 + 128] + EncodeVarint(v4);
  }

  lemma Power128Bounds()
    ensures Power128(5) >= WORD32 && Power128(10) >= WORD64
  {
    assert Power128(3) == 0x20_0000;
    assert Power128(5) == 128 * (128 * Power128(3));
    assert Power128(7) == 128 * (128 * Power128(5));
    assert Power128(9) == 128 * (128 * Power128(7));
  }

  lemma Varint32RoundTrip(v: Word32, rest: Bytes)
    ensures GetVarint32(EncodeVarint32(v) + rest) == Some(Decoded(v, rest))
  {
    Varint32IsVarint(v);
    Power128Bounds();
    GetVarintRoundTrip(v, rest, 5, WORD32);
  }

  lemma Varint64RoundTrip(v: Word64, rest: Bytes)
    ensures GetVarint64(EncodeVarint(v) + rest) == Some(Decoded(v, rest))
  {
    Power128Bounds();
    GetVarintRoundTrip(v, rest, 10, WORD64);
  }

  lemma Regroup<T>(a: seq<T>, b: seq<T>, c: seq<T>)
    ensures (a + b) + c == a + (b + c)
  {
  }

  // ---------------------------------------------------------------------
  // Length-prefixed strings
  // ---------------------------------------------------------------------

  function PutLengthPrefixed(s: Bytes): Bytes
    requires |s| < WORD32
  {
    EncodeVarint32(|s|) + s
  }

  function GetLengthPrefixed(b: Bytes): Option<Decoded<Bytes>> {
    match GetVarint32(b)
    case None => None
    case Some(Decoded(n, rest)) => if |rest| >= n then Some(Decoded(rest[..n], rest[n..])) else None
  }

  lemma PrefixedConsumes(b: Bytes)
    ensures var r := GetLengthPrefixed(b); r.Some? ==> |r.value.rest| < |b|
  {
    VarintConsumes(b, 5);
  }

  lemma LengthPrefixedRoundTrip(s: Bytes, rest: Bytes)
    requires |s| < WORD32
    ensures GetLengthPrefixed(PutLengthPrefixed(s) + rest) == Some(Decoded(s, rest))
  {
    assert PutLengthPrefixed(s) + rest == EncodeVarint32(|s|) + (s + rest);
    Varint32RoundTrip(|s|, s + rest);
    assert (s + rest)[..|s|] == s && (s + rest)[|s|..] == rest;
  }

  lemma PrefixedFormat(s: Bytes)
    requires |s| < WORD32
    ensures IsPrefixed(PutLengthPrefixed(s), s)
  {
    Varint32IsVarint(|s|);
    VarintIsBase128(|s|);
  }

  /** A varint that counts the bytes behind it. */
  ghost predicate IsPrefixed(b: Bytes, data: Bytes) {
    exists head :: IsVarint(head, |data|) && b == head + data
  }

  function Joined(parts: seq<Bytes>): Bytes {
    if parts == [] then [] else Joined(parts[..|parts| - 1]) + parts[|parts| - 1]
  }

  lemma JoinedOne(first: Bytes, rest: seq<Bytes>)
    ensures Joined([first] + rest) == first + Joined(rest)
  {
    if rest == [] {
      assert [first][..0] == [] && [first] + [] == [first];
    } else {
      var n := |rest| - 1;
      JoinedOne(first, rest[..n]);
      assert ([first] + rest)[..|rest|] == [first] + rest[..n];
      Regroup(first, Joined(rest[..n]), rest[n]);
    }
  }

  // ---------------------------------------------------------------------
  // Masked checksums
  // ---------------------------------------------------------------------

  const MASK_DELTA: nat := 0xa282ead8

  /** Rotate right by 15 bits and add a constant, in 32 bits. */
  function Mask(crc: Word32): Word32 {
    (crc / 0x8000 + crc % 0x8000 * 0x2_0000 + MASK_DELTA) % WORD32
  }

  function Unmask(masked: Word32): Word32 {
    var rot := (masked - MASK_DELTA) % WORD32;
    rot / 0x2_0000 + rot % 0x2_0000 * 0x8000
  }

  lemma UnmaskMask(crc: Word32)
    ensures Unmask(Mask(crc)) == crc
  {
    var hi, lo := crc / 0x8000, crc % 0x8000;
    AddThenSubtract(hi + lo * 0x2_0000);
    HalvesOfRotation(hi, lo);
  }

  lemma AddThenSubtract(n: Word32)
    ensures ((n + MASK_DELTA) % WORD32 - MASK_DELTA) % WORD32 == n
  {
  }

  lemma HalvesOfRotation(hi: nat, lo: nat)
    requires hi < 0x2_0000
    ensures (hi + lo * 0x2_0000) / 0x2_0000 == lo && (hi + lo * 0x2_0000) % 0x2_0000 == hi
  {
  }
}
