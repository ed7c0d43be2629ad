/** Bloom filters: a key that was added is never denied. */
module Filters {
  import opened InternalKeys
  import opened Coding

  // ---------------------------------------------------------------------
  // Bits of a byte array
  // ---------------------------------------------------------------------

  /** `b & (1 << k)` */
  predicate TestBit(b: nat, k: nat) {
    if k == 0 then b % 2 == 1 else TestBit(b / 2, k - 1)
  }

  /** `b | (1 << k)` */
  function SetBit(b: nat, k: nat): nat {
    if k == 0 then b / 2 * 2 + 1 else SetBit(b / 2, k - 1) * 2 + b % 2
  }

  function Power2(n: nat): nat {
    if n == 0 then 1 else 2 * Power2(n - 1)
  }

  lemma {:induction false} SetBitStaysInRange(b: nat, k: nat, n: nat)
    requires k < n && b < Power2(n)
    ensures SetBit(b, k) < Power2(n)
  {
    if k > 0 {
      SetBitStaysInRange(b / 2, k - 1, n - 1);
    }
  }

  lemma {:induction false} SetBitSets(b: nat, k: nat, j: nat)
    ensures TestBit(SetBit(b, k), j) <==> TestBit(b, j) || j == k
  {
    if k > 0 && j > 0 {
      SetBitSets(b / 2, k - 1, j - 1);
    }
  }

  lemma {:induction false} ZeroHasNoBits(k: nat)
    ensures !TestBit(0, k)
  {
    if k > 0 {
      ZeroHasNoBits(k - 1);
    }
  }

  function SetBitOfByte(b: Byte, k: nat): Byte
    requires k < 8
  {
    assert Power2(8) == 256 by {
      assert Power2(2) == 4 && Power2(4) == 16 && Power2(6) == 64;
    }
    SetBitStaysInRange(b, k, 8);
    SetBit(b, k)
  }

  predicate Bit(bitmap: Bytes, p: nat)
    requires p < 8 * |bitmap|
  {
    TestBit(bitmap[p / 8], p % 8)
  }

  function SetBitAt(bitmap: Bytes, p: nat): (r: Bytes)
    requires p < 8 * |bitmap|
    ensures |r| == |bitmap|
  {
    bitmap[p / 8 := SetBitOfByte(bitmap[p / 8], p % 8)]
  }

  lemma SetBitAtSets(bitmap: Bytes, p: nat, q: nat)
    requires p < 8 * |bitmap| && q < 8 * |bitmap|
    ensures Bit(SetBitAt(bitmap, p), q) <==> Bit(bitmap, q) || q == p
  {
    SetBitSets(bitmap[p / 8], p % 8, q % 8);
  }

  // ---------------------------------------------------------------------
  // The Bloom filter
  // ---------------------------------------------------------------------

  /** A hash of keys, any function will do, and the bits to spend on a key. */
  datatype Bloom = Bloom(hash: Bytes -> Word32, bitsPerKey: nat) {
    /** About ln 2 probes for every bit of a key, between 1 and 30. */
    function Probes(): (k: nat)
      ensures 1 <= k <= 30
    {
      var k := bitsPerKey * 69 / 100;
      if k < 1 then 1 else if k > 30 then 30 else k
    }

    function SizeFor(n: nat): (bytes: nat)
      ensures bytes >= 8
    {
      var bits := if n * bitsPerKey < 64 then 64 else n * bitsPerKey;
      (bits + 7) / 8
    }
  }

  /** Rotate right by 17 bits. */
  function Delta(h: Word32): Word32 {
    h / 0x2_0000 + h % 0x2_0000 * 0x8000
  }

  /** Probe `j` of a key with hash `h`, by double hashing modulo 2^32. */
  function Probe(h: Word32, j: nat): Word32 {
    (h + j * Delta(h)) % WORD32
  }

  lemma AddModulo(x: nat, d: nat)
    ensures (x % WORD32 + d) % WORD32 == (x + d) % WORD32
  {
    assert x == x / WORD32 * WORD32 + x % WORD32;
    assert x + d == (x % WORD32 + d) + x / WORD32 * WORD32;
  }

  lemma NextProbe(h: Word32, j: nat)
    ensures Probe(h, 0) == h
    ensures (Probe(h, j) + Delta(h)) % WORD32 == Probe(h, j + 1)
  {
    var d := Delta(h);
    var x := j * d;
    assert (j + 1) * d == x + d;
    AddModulo(h + x, d);
  }

  function ProbeBit(h: Word32, j: nat, bytes: nat): (p: nat)
    requires bytes > 0
    ensures p < 8 * bytes
  {
    Probe(h, j) % (8 * bytes)
  }

  function AddProbes(bitmap: Bytes, h: Word32, k: nat): (r: Bytes)
    requires bitmap != []
    ensures |r| == |bitmap|
  {
    if k == 0 then bitmap else
      var before := AddProbes(bitmap, h, k - 1);
      SetBitAt(before, ProbeBit(h, k - 1, |before|))
  }

  function AddKeys(b: Bloom, bitmap: Bytes, keys: seq<Bytes>): (r: Bytes)
    requires bitmap != []
    ensures |r| == |bitmap|
  {
    if keys == [] then bitmap
    else AddProbes(AddKeys(b, bitmap, keys[..|keys| - 1]), b.hash(keys[|keys| - 1]), b.Probes())
  }

  /** The bits of all probes of all keys, and the number of probes. */
  function FilterOf(b: Bloom, keys: seq<Bytes>): Bytes {
    AddKeys(b, Zeros(b.SizeFor(|keys|)), keys) + [b.Probes()]
  }

  /** Bit `p` is a probe of one of the keys. */
  ghost predicate IsProbed(b: Bloom, keys: seq<Bytes>, bytes: nat, p: nat)
    requires bytes > 0
  {
    exists i, j | 0 <= i < |keys| && 0 <= j < b.Probes() :: ProbeBit(b.hash(keys[i]), j, bytes) == p
  }

  lemma {:induction false} ProbesAreSet(bitmap: Bytes, h: Word32, k: nat, p: nat)
    requires p < 8 * |bitmap|
    ensures Bit(AddProbes(bitmap, h, k), p) <==>
      Bit(bitmap, p) || exists j | 0 <= j < k :: ProbeBit(h, j, |bitmap|) == p
  {
    if k > 0 {
      ProbesAreSet(bitmap, h, k - 1, p);
      SetBitAtSets(AddProbes(bitmap, h, k - 1), ProbeBit(h, k - 1, |bitmap|), p);
    }
  }

  /** Exactly the probed bits are set. */
  lemma {:induction false} KeysAreSet(b: Bloom, bitmap: Bytes, keys: seq<Bytes>, p: nat)
    requires p < 8 * |bitmap|
    ensures Bit(AddKeys(b, bitmap, keys), p) <==> Bit(bitmap, p) || IsProbed(b, keys, |bitmap|, p)
  {
    if keys != [] {
      var n := |keys| - 1;
      KeysAreSet(b, bitmap, keys[..n], p);
      ProbesAreSet(AddKeys(b, bitmap, keys[..n]), b.hash(keys[n]), b.Probes(), p);
      if IsProbed(b, keys[..n], |bitmap|, p) {
        var i, j :| 0 <= i < n && 0 <= j < b.Probes() && ProbeBit(b.hash(keys[..n][i]), j, |bitmap|) == p;
        assert keys[i] == keys[..n][i];
      }
      if IsProbed(b, keys, |bitmap|, p) {
        var i, j :| 0 <= i < |keys| && 0 <= j < b.Probes() && ProbeBit(b.hash(keys[i]), j, |bitmap|) == p;
        assert i < n ==> keys[i] == keys[..n][i];
      }
    }
  }

  predicate IsSet(bitmap: Bytes, h: Word32, j: nat)
    requires bitmap != []
  {
    Bit(bitmap, ProbeBit(h, j, |bitmap|))
  }

  predicate AllSet(bitmap: Bytes, h: Word32, k: nat)
    requires bitmap != []
  {
    forall j :: 0 <= j < k ==> IsSet(bitmap, h, j)
  }

  /** All probes of the key are set in the filter. */
  predicate KeyMayMatch(b: Bloom, key: Bytes, filter: Bytes) {
    |filter| >= 2 &&
    var k := filter[|filter| - 1];
    k > 30 || AllSet(filter[..|filter| - 1], b.hash(key), k)
  }

  /** A filter matches exactly the keys whose probes are all probes of its own keys. */
  lemma FilterMatchesExactly(b: Bloom, keys: seq<Bytes>, key: Bytes)
    ensures var bytes := b.SizeFor(|keys|);
      KeyMayMatch(b, key, FilterOf(b, keys)) <==>
      forall j :: 0 <= j < b.Probes() ==> IsProbed(b, keys, bytes, ProbeBit(b.hash(key), j, bytes))
  {
    var bytes, filter := b.SizeFor(|keys|), FilterOf(b, keys);
    var bitmap := AddKeys(b, Zeros(bytes), keys);
    assert filter[..|filter| - 1] == bitmap && filter[|filter| - 1] == b.Probes();
    forall j | 0 <= j < b.Probes()
      ensures IsSet(bitmap, b.hash(key), j) <==> IsProbed(b, keys, bytes, ProbeBit(b.hash(key), j, bytes))
    {
      var p := ProbeBit(b.hash(key), j, bytes);
      KeysAreSet(b, Zeros(bytes), keys, p);
      ZeroHasNoBits(p % 8);
    }
  }

  lemma BloomHasNoFalseNegatives(b: Bloom, keys: seq<Bytes>, key: Bytes)
    requires key in keys
    ensures KeyMayMatch(b, key, FilterOf(b, keys))
  {
    FilterMatchesExactly(b, keys, key);
    var bytes := b.SizeFor(|keys|);
    var i :| 0 <= i < |keys| && keys[i] == key;
    forall j | 0 <= j < b.Probes() ensures IsProbed(b, keys, bytes, ProbeBit(b.hash(key), j, bytes)) {
      assert ProbeBit(b.hash(keys[i]), j, bytes) == ProbeBit(b.hash(key), j, bytes);
    }
  }

  /** The inner loop: sets the bits of one key. */
  method SetProbes(b: Bloom, bitmap: Bytes, key: Bytes) returns (r: Bytes)
    requires bitmap != []
    ensures r == AddProbes(bitmap, b.hash(key), b.Probes())
  {
    r := bitmap;
    var h := b.hash(key);
    var delta := Delta(h);
    NextProbe(b.hash(key), 0);
    for j := 0 to b.Probes()
      invariant h == Probe(b.hash(key), j)
      invariant r == AddProbes(bitmap, b.hash(key), j)
    {
      var bitpos := h % (8 * |r|);
      r := r[bitpos / 8 := SetBitOfByte(r[bitpos / 8], bitpos % 8)];
      h := (h + delta) % WORD32;
      NextProbe(b.hash(key), j);
    }
  }

  /** Appends the filter of `keys` to `dst`. */
  method CreateFilter(b: Bloom, keys: seq<Bytes>, dst: Bytes) returns (r: Bytes)
    ensures r == dst + FilterOf(b, keys)
  {
    var bitmap := Zeros(b.SizeFor(|keys|));
    for i := 0 to |keys|
      invariant bitmap == AddKeys(b, Zeros(b.SizeFor(|keys|)), keys[..i])
    {
      assert keys[..i + 1][..i] == keys[..i];
      bitmap := SetProbes(b, bitmap, keys[i]);
    }
    assert keys[..|keys|] == keys;
    r := dst + (bitmap + [b.Probes()]);
  }

  method MayMatch(b: Bloom, key: Bytes, filter: Bytes) returns (r: bool)
    ensures r == KeyMayMatch(b, key, filter)
  {
    if |filter| < 2 {
      return false;
    }
    var bitmap, k := filter[..|filter| - 1], filter[|filter| - 1];
    if k > 30 {
      return true;
    }
    var h := b.hash(key);
    var delta := Delta(h);
    NextProbe(b.hash(key), 0);
    for j := 0 to k
      invariant h == Probe(b.hash(key), j)
      invariant AllSet(bitmap, b.hash(key), j)
    {
      var bitpos := h % (8 * |bitmap|);
      if !TestBit(bitmap[bitpos / 8], bitpos % 8) {
        assert !IsSet(bitmap, b.hash(key), j);
        return false;
      }
      h := (h + delta) % WORD32;
      NextProbe(b.hash(key), j);
    }
    return true;
  }
}
