/** CRC-32C: the four-stride loop against one byte at a time, and both against
    the bit-serial division of section 12.1 of RFC 3720.

  Bytes and words are lists of bits, least significant first, so that a shift
  by k drops k bits from the front.
 */
module Checksums {

  type Bits = seq<bool>
  type Octet = b: Bits | |b| == 8 witness Zeros(8)
  type Word = w: Bits | |w| == 32 witness Zeros(32)
  type Buffer = seq<Octet>
  type Table = Octet -> Word

  // ---------------------------------------------------------------------
  // Bits
  // ---------------------------------------------------------------------

  function Zeros(n: nat): (r: Bits)
    ensures |r| == n && forall i :: 0 <= i < n ==> !r[i]
  {
    seq(n, i => false)
  }

  function Ones(n: nat): (r: Bits)
    ensures |r| == n
  {
    seq(n, i => true)
  }

  function Xor(a: Bits, b: Bits): (r: Bits)
    requires |a| == |b|
    ensures |r| == |a| && forall i :: 0 <= i < |a| ==> r[i] == (a[i] != b[i])
  {
    seq(|a|, i requires 0 <= i < |a| => a[i] != b[i])
  }

  lemma XorAssociates(a: Bits, b: Bits, c: Bits)
    requires |a| == |b| == |c|
    ensures Xor(Xor(a, b), c) == Xor(a, Xor(b, c))
  {
  }

  lemma XorCommutes(a: Bits, b: Bits)
    requires |a| == |b|
    ensures Xor(a, b) == Xor(b, a)
  {
  }

  lemma XorSwaps(a: Bits, b: Bits, c: Bits, d: Bits)
    requires |a| == |b| == |c| == |d|
    ensures Xor(Xor(a, b), Xor(c, d)) == Xor(Xor(a, c), Xor(b, d))
  {
  }

  lemma XorZeros(a: Bits)
    ensures Xor(a, Zeros(|a|)) == a && Xor(a, a) == Zeros(|a|)
  {
  }

  /** `x >> k` */
  function Shift(x: Bits, k: nat): (r: Bits)
    requires k <= |x|
    ensures |r| == |x|
  {
    x[k..] + Zeros(k)
  }

  lemma ShiftXor(x: Bits, y: Bits, k: nat)
    requires k <= |x| == |y|
    ensures Shift(Xor(x, y), k) == Xor(Shift(x, k), Shift(y, k))
    ensures Xor(x, y)[..k] == Xor(x[..k], y[..k])
  {
  }

  // ---------------------------------------------------------------------
  // One byte at a time
  // ---------------------------------------------------------------------

  function Step1(t: Table, l: Word, b: Octet): Word {
    Xor(t(Xor(l[..8], b)), Shift(l, 8))
  }

  /** The simple form. */
  function Bytewise(t: Table, l: Word, s: Buffer): Word {
    if s == [] then l else Step1(t, Bytewise(t, l, s[..|s| - 1]), s[|s| - 1])
  }

  /** The checksum of `s`, continuing from `crc`: pre- and post-conditioned. */
  function Crc(t: Table, crc: Word, s: Buffer): Word {
    Xor(Bytewise(t, Xor(crc, Ones(32)), s), Ones(32))
  }

  lemma {:induction false} BytewiseAppend(t: Table, l: Word, a: Buffer, b: Buffer)
    ensures Bytewise(t, l, a + b) == Bytewise(t, Bytewise(t, l, a), b)
  {
    if b == [] {
      assert a + b == a;
    } else {
      var n := |b| - 1;
      assert (a + b)[..|a + b| - 1] == a + b[..n];
      BytewiseAppend(t, l, a, b[..n]);
    }
  }

  /** A checksum can be extended piece by piece. */
  lemma ExtendInPieces(t: Table, crc: Word, a: Buffer, b: Buffer)
    ensures Crc(t, Crc(t, crc, a), b) == Crc(t, crc, a + b)
  {
    var l := Bytewise(t, Xor(crc, Ones(32)), a);
    XorAssociates(l, Ones(32), Ones(32));
    XorZeros(Ones(32));
    XorZeros(l);
    BytewiseAppend(t, Xor(crc, Ones(32)), a, b);
  }

  // ---------------------------------------------------------------------
  // Words
  // ---------------------------------------------------------------------

  /** The step for a zero byte. */
  function Zero(t: Table, x: Word): Word {
    Xor(t(x[..8]), Shift(x, 8))
  }

  function Zero4(t: Table, x: Word): Word {
    Zero(t, Zero(t, Zero(t, Zero(t, x))))
  }

  function Zero16(t: Table, x: Word): Word {
    Zero4(t, Zero4(t, Zero4(t, Zero4(t, x))))
  }

  /** Four bytes, least significant first. */
  function Join(b0: Bits, b1: Bits, b2: Bits, b3: Bits): Word
    requires |b0| == |b1| == |b2| == |b3| == 8
  {
    b0 + b1 + b2 + b3
  }

  function ReadUint32LE(s: Buffer, p: nat): Word
    requires p + 4 <= |s|
  {
    Join(s[p], s[p + 1], s[p + 2], s[p + 3])
  }

  /** Taking in one byte of a word that was already mixed in. */
  lemma OneByte(t: Table, l: Word, w: Word)
    ensures Zero(t, Xor(l, w)) == Xor(Step1(t, l, w[..8]), Shift(w, 8))
  {
    ShiftXor(l, w, 8);
    XorAssociates(t(Xor(l[..8], w[..8])), Shift(l, 8), Shift(w, 8));
  }

  lemma WordParts(b0: Octet, b1: Octet, b2: Octet, b3: Octet)
    ensures var w0 := Join(b0, b1, b2, b3);
      var w1 := Shift(w0, 8);
      var w2 := Shift(w1, 8);
      var w3 := Shift(w2, 8);
      w0[..8] == b0 && w1[..8] == b1 && w2[..8] == b2 && w3[..8] == b3 && Shift(w3, 8) == Zeros(32)
  {
    var w0 := Join(b0, b1, b2, b3);
    assert Shift(w0, 8) == b1 + b2 + b3 + Zeros(8);
    assert Shift(b1 + b2 + b3 + Zeros(8), 8) == b2 + b3 + Zeros(16);
    assert Shift(b2 + b3 + Zeros(16), 8) == b3 + Zeros(24);
    assert Shift(b3 + Zeros(24), 8) == Zeros(32);
  }

  /** Mixing in a word and stepping over four zero bytes takes in its four bytes. */
  lemma FourBytes(t: Table, l: Word, b0: Octet, b1: Octet, b2: Octet, b3: Octet)
    ensures Zero4(t, Xor(l, Join(b0, b1, b2, b3))) == Step1(t, Step1(t, Step1(t, Step1(t, l, b0), b1), b2), b3)
  {
    var w0 := Join(b0, b1, b2, b3);
    var w1 := Shift(w0, 8);
    var w2 := Shift(w1, 8);
    var w3 := Shift(w2, 8);
    var l1 := Step1(t, l, b0);
    var l2 := Step1(t, l1, b1);
    var l3 := Step1(t, l2, b2);
    WordParts(b0, b1, b2, b3);
    OneByte(t, l, w0);
    OneByte(t, l1, w1);
    OneByte(t, l2, w2);
    OneByte(t, l3, w3);
    XorZeros(Step1(t, l3, b3));
  }

  lemma BytewiseNext(t: Table, l: Word, s: Buffer, p: nat)
    requires p < |s|
    ensures Bytewise(t, l, s[..p + 1]) == Step1(t, Bytewise(t, l, s[..p]), s[p])
  {
    assert s[..p + 1][..p] == s[..p];
  }

  lemma BytewiseWord(t: Table, l: Word, s: Buffer, p: nat)
    requires p + 4 <= |s|
    ensures Bytewise(t, l, s[..p + 4]) == Zero4(t, Xor(Bytewise(t, l, s[..p]), ReadUint32LE(s, p)))
  {
    BytewiseNext(t, l, s, p);
    BytewiseNext(t, l, s, p + 1);
    BytewiseNext(t, l, s, p + 2);
    BytewiseNext(t, l, s, p + 3);
    FourBytes(t, Bytewise(t, l, s[..p]), s[p], s[p + 1], s[p + 2], s[p + 3]);
  }

  // ---------------------------------------------------------------------
  // Strides
  // ---------------------------------------------------------------------

  predicate LinearAt(t: Table, a: Octet, b: Octet) {
    t(Xor(a, b)) == Xor(t(a), t(b))
  }

  ghost predicate Linear(t: Table) {
    forall a, b :: LinearAt(t, a, b)
  }

  /** Byte `k` of a word, the others zero. */
  function ByteAt(b: Octet, k: nat): Word
    requires k < 4
  {
    Zeros(8 * k) + b + Zeros(24 - 8 * k)
  }

  /** The byte table and the four stride tables. */
  datatype Tables = Tables(byte: Table, stride0: Table, stride1: Table, stride2: Table, stride3: Table)

  /** What the tables must satisfy: the byte table is linear over exclusive or,
      and a stride table advances one byte of a word over 16 zero bytes. */
  ghost predicate Good(tb: Tables) {
    && Linear(tb.byte)
    && (forall b :: tb.stride3(b) == Zero16(tb.byte, ByteAt(b, 0)))
    && (forall b :: tb.stride2(b) == Zero16(tb.byte, ByteAt(b, 1)))
    && (forall b :: tb.stride1(b) == Zero16(tb.byte, ByteAt(b, 2)))
    && (forall b :: tb.stride0(b) == Zero16(tb.byte, ByteAt(b, 3)))
  }

  lemma ZeroIsLinear(t: Table, x: Word, y: Word)
    requires Linear(t)
    ensures Zero(t, Xor(x, y)) == Xor(Zero(t, x), Zero(t, y))
  {
    ShiftXor(x, y, 8);
    assert LinearAt(t, x[..8], y[..8]);
    XorSwaps(t(x[..8]), t(y[..8]), Shift(x, 8), Shift(y, 8));
  }

  lemma Zero4IsLinear(t: Table, x: Word, y: Word)
    requires Linear(t)
    ensures Zero4(t, Xor(x, y)) == Xor(Zero4(t, x), Zero4(t, y))
  {
    var x1, y1 := Zero(t, x), Zero(t, y);
    var x2, y2 := Zero(t, x1), Zero(t, y1);
    var x3, y3 := Zero(t, x2), Zero(t, y2);
    ZeroIsLinear(t, x, y);
    ZeroIsLinear(t, x1, y1);
    ZeroIsLinear(t, x2, y2);
    ZeroIsLinear(t, x3, y3);
  }

  lemma Zero16IsLinear(t: Table, x: Word, y: Word)
    requires Linear(t)
    ensures Zero16(t, Xor(x, y)) == Xor(Zero16(t, x), Zero16(t, y))
  {
    var x1, y1 := Zero4(t, x), Zero4(t, y);
    var x2, y2 := Zero4(t, x1), Zero4(t, y1);
    var x3, y3 := Zero4(t, x2), Zero4(t, y2);
    Zero4IsLinear(t, x, y);
    Zero4IsLinear(t, x1, y1);
    Zero4IsLinear(t, x2, y2);
    Zero4IsLinear(t, x3, y3);
  }

  /** `STEP4` before the new word is mixed in. */
  function Stride(tb: Tables, x: Word): Word {
    Xor(Xor(Xor(tb.stride3(x[..8]), tb.stride2(x[8..16])), tb.stride1(x[16..24])), tb.stride0(x[24..]))
  }

  lemma FourParts(x: Word)
    ensures x == Xor(Xor(Xor(ByteAt(x[..8], 0), ByteAt(x[8..16], 1)), ByteAt(x[16..24], 2)), ByteAt(x[24..], 3))
  {
  }

  lemma StrideAdvances(tb: Tables, x: Word)
    requires Good(tb)
    ensures Stride(tb, x) == Zero16(tb.byte, x)
  {
    var a, b, c, d := ByteAt(x[..8], 0), ByteAt(x[8..16], 1), ByteAt(x[16..24], 2), ByteAt(x[24..], 3);
    FourParts(x);
    Zero16IsLinear(tb.byte, Xor(Xor(a, b), c), d);
    Zero16IsLinear(tb.byte, Xor(a, b), c);
    Zero16IsLinear(tb.byte, a, b);
  }

  /** `STEP4W`: the combined result so far, and the next partial result. */
  function Step4W(t: Table, l: Word, c: Word): Word {
    Zero4(t, Xor(l, c))
  }

  function Combine(t: Table, c0: Word, c1: Word, c2: Word, c3: Word): Word {
    Step4W(t, Step4W(t, Step4W(t, Step4W(t, Zeros(32), c0), c1), c2), c3)
  }

  lemma StepIsLinear(t: Table, x: Word, y: Word, c: Word)
    requires Linear(t)
    ensures Step4W(t, Xor(x, y), c) == Xor(Step4W(t, x, c), Zero4(t, y))
  {
    XorAssociates(x, y, c);
    XorCommutes(y, c);
    XorAssociates(x, c, y);
    Zero4IsLinear(t, Xor(x, c), y);
  }

  /** The oldest partial result apart: it has 16 more bytes to go. */
  lemma CombineApart(t: Table, c0: Word, c1: Word, c2: Word, c3: Word)
    requires Linear(t)
    ensures Combine(t, c0, c1, c2, c3)
         == Xor(Step4W(t, Step4W(t, Step4W(t, Zeros(32), c1), c2), c3), Zero16(t, c0))
  {
    var z := Zeros(32);
    var y1 := Zero4(t, c0);
    var y2 := Zero4(t, y1);
    var y3 := Zero4(t, y2);
    FromZero(t, c0);
    XorCommutes(z, y1);
    XorZeros(y1);
    StepIsLinear(t, z, y1, c1);
    StepIsLinear(t, Step4W(t, z, c1), y2, c2);
    StepIsLinear(t, Step4W(t, Step4W(t, z, c1), c2), y3, c3);
  }

  lemma FromZero(t: Table, c: Word)
    ensures Step4W(t, Zeros(32), c) == Zero4(t, c)
  {
    XorCommutes(Zeros(32), c);
    XorZeros(c);
  }

  /** Feeding a word to the oldest partial result, which becomes the newest. */
  lemma RotateStep(tb: Tables, c0: Word, c1: Word, c2: Word, c3: Word, w: Word)
    requires Good(tb)
    ensures Combine(tb.byte, c1, c2, c3, Xor(w, Stride(tb, c0)))
      == Zero4(tb.byte, Xor(Combine(tb.byte, c0, c1, c2, c3), w))
  {
    var t := tb.byte;
    var rest := Step4W(t, Step4W(t, Step4W(t, Zeros(32), c1), c2), c3);
    StrideAdvances(tb, c0);
    CombineApart(t, c0, c1, c2, c3);
    XorCommutes(w, Zero16(t, c0));
    XorAssociates(rest, Zero16(t, c0), w);
  }

  // ---------------------------------------------------------------------
  // The fast form
  // ---------------------------------------------------------------------

  /** `STEP1` until `end`. */
  method StepBytes(t: Table, ghost l0: Word, l: Word, s: Buffer, p: nat, end: nat) returns (r: Word)
    requires p <= end <= |s| && l == Bytewise(t, l0, s[..p])
    ensures r == Bytewise(t, l0, s[..end])
  {
    r := l;
    for i := p to end
      invariant r == Bytewise(t, l0, s[..i])
    {
      BytewiseNext(t, l0, s, i);
      r := Step1(t, r, s[i]);
    }
  }

  /** `STEP4(s)` for the word at `p`. */
  function Step4(tb: Tables, c: Word, s: Buffer, p: nat): Word
    requires p + 4 <= |s|
  {
    Xor(ReadUint32LE(s, p), Stride(tb, c))
  }

  /** The four partial results stand for the first `p` bytes. */
  predicate StandsFor(tb: Tables, l0: Word, s: Buffer, p: nat, c0: Word, c1: Word, c2: Word, c3: Word)
    requires p <= |s|
  {
    Combine(tb.byte, c0, c1, c2, c3) == Bytewise(tb.byte, l0, s[..p])
  }

  lemma StartStrides(tb: Tables, l0: Word, l: Word, s: Buffer, p: nat)
    requires p + 16 <= |s| && l == Bytewise(tb.byte, l0, s[..p])
    ensures StandsFor(tb, l0, s, p + 16, Xor(ReadUint32LE(s, p), l), ReadUint32LE(s, p + 4),
                      ReadUint32LE(s, p + 8), ReadUint32LE(s, p + 12))
  {
    var t := tb.byte;
    FromZero(t, Xor(ReadUint32LE(s, p), l));
    XorCommutes(ReadUint32LE(s, p), l);
    BytewiseWord(t, l0, s, p);
    BytewiseWord(t, l0, s, p + 4);
    BytewiseWord(t, l0, s, p + 8);
    BytewiseWord(t, l0, s, p + 12);
  }

  lemma NextWord(tb: Tables, l0: Word, s: Buffer, p: nat, c0: Word, c1: Word, c2: Word, c3: Word)
    requires Good(tb) && p + 4 <= |s| && StandsFor(tb, l0, s, p, c0, c1, c2, c3)
    ensures StandsFor(tb, l0, s, p + 4, c1, c2, c3, Step4(tb, c0, s, p))
  {
    RotateStep(tb, c0, c1, c2, c3, ReadUint32LE(s, p));
    BytewiseWord(tb.byte, l0, s, p);
  }

  method Step16(tb: Tables, ghost l0: Word, s: Buffer, p: nat, c0: Word, c1: Word, c2: Word, c3: Word)
    returns (d0: Word, d1: Word, d2: Word, d3: Word, q: nat)
    requires Good(tb) && p + 16 <= |s| && StandsFor(tb, l0, s, p, c0, c1, c2, c3)
    ensures q == p + 16 && StandsFor(tb, l0, s, q, d0, d1, d2, d3)
  {
    d0 := Step4(tb, c0, s, p);
    d1 := Step4(tb, c1, s, p + 4);
    d2 := Step4(tb, c2, s, p + 8);
    d3 := Step4(tb, c3, s, p + 12);
    NextWord(tb, l0, s, p, c0, c1, c2, c3);
    NextWord(tb, l0, s, p + 4, c1, c2, c3, d0);
    NextWord(tb, l0, s, p + 8, c2, c3, d0, d1);
    NextWord(tb, l0, s, p + 12, c3, d0, d1, d2);
    q := p + 16;
  }

  /** One word; the partial results rotate. */
  method StepWord(tb: Tables, ghost l0: Word, s: Buffer, p: nat, c0: Word, c1: Word, c2: Word, c3: Word)
    returns (d0: Word, d1: Word, d2: Word, d3: Word, q: nat)
    requires Good(tb) && p + 4 <= |s| && StandsFor(tb, l0, s, p, c0, c1, c2, c3)
    ensures q == p + 4 && StandsFor(tb, l0, s, q, d0, d1, d2, d3)
  {
    var tmp := Step4(tb, c0, s, p);
    NextWord(tb, l0, s, p, c0, c1, c2, c3);
    d0, d1, d2, d3, q := c1, c2, c3, tmp, p + 4;
  }

  /** The two stride loops and the combination. */
  method StepStrides(tb: Tables, ghost l0: Word, l: Word, s: Buffer, start: nat) returns (r: Word, p: nat)
    requires Good(tb) && start + 16 <= |s| && l == Bytewise(tb.byte, l0, s[..start])
    ensures p <= |s| && r == Bytewise(tb.byte, l0, s[..p])
  {
    var crc0: Word := Xor(ReadUint32LE(s, start), l);
    var crc1: Word := ReadUint32LE(s, start + 4);
    var crc2: Word := ReadUint32LE(s, start + 8);
    var crc3: Word := ReadUint32LE(s, start + 12);
    StartStrides(tb, l0, l, s, start);
    p := start + 16;
    while |s| - p >= 16
      invariant p <= |s| && StandsFor(tb, l0, s, p, crc0, crc1, crc2, crc3)
    {
      crc0, crc1, crc2, crc3, p := Step16(tb, l0, s, p, crc0, crc1, crc2, crc3);
    }
    while |s| - p >= 4
      invariant p <= |s| && StandsFor(tb, l0, s, p, crc0, crc1, crc2, crc3)
    {
      crc0, crc1, crc2, crc3, p := StepWord(tb, l0, s, p, crc0, crc1, crc2, crc3);
    }
    var l1 := Step4W(tb.byte, Zeros(32), crc0);
    var l2 := Step4W(tb.byte, l1, crc1);
    var l3 := Step4W(tb.byte, l2, crc2);
    r := Step4W(tb.byte, l3, crc3);
  }

  /** `Extend` for a buffer at any address: the fast form is the simple form. */
  method Extend(tb: Tables, crc: Word, s: Buffer, address: nat) returns (r: Word)
    requires Good(tb)
    ensures r == Crc(tb.byte, crc, s)
  {
    ghost var l0 := Xor(crc, Ones(32));
    var l := Xor(crc, Ones(32));
    var p := 0;
    var x := (address + 3) / 4 * 4 - address;
    if x <= |s| {
      l := StepBytes(tb.byte, l0, l, s, p, x);
      p := x;
    }
    if |s| - p >= 16 {
      l, p := StepStrides(tb, l0, l, s, p);
    }
    l := StepBytes(tb.byte, l0, l, s, p, |s|);
    assert s[..|s|] == s;
    r := Xor(l, Ones(32));
  }

  // ---------------------------------------------------------------------
  // Bit-serial division
  // ---------------------------------------------------------------------

  /** One bit: shift it out, and subtract the polynomial when it was set. */
  function Divide1(poly: Word, x: Word): Word {
    Xor(Shift(x, 1), if x[0] then poly else Zeros(32))
  }

  function Divide(poly: Word, x: Word, n: nat): Word
    decreases n
  {
    if n == 0 then x else Divide(poly, Divide1(poly, x), n - 1)
  }

  /** Mixing a byte in and dividing its eight bits away. */
  function BitSerial(poly: Word, l: Word, s: Buffer): Word {
    if s == [] then l
    else Divide(poly, Xor(BitSerial(poly, l, s[..|s| - 1]), ByteAt(s[|s| - 1], 0)), 8)
  }

  lemma Divide1IsLinear(poly: Word, x: Word, y: Word)
    ensures Divide1(poly, Xor(x, y)) == Xor(Divide1(poly, x), Divide1(poly, y))
  {
    var px, py := if x[0] then poly else Zeros(32), if y[0] then poly else Zeros(32);
    ShiftXor(x, y, 1);
    XorSwaps(Shift(x, 1), px, Shift(y, 1), py);
    XorZeros(poly);
    XorZeros(Zeros(32));
    XorCommutes(Zeros(32), poly);
    assert Xor(px, py) == if Xor(x, y)[0] then poly else Zeros(32);
  }

  lemma {:induction false} DivideIsLinear(poly: Word, x: Word, y: Word, n: nat)
    ensures Divide(poly, Xor(x, y), n) == Xor(Divide(poly, x, n), Divide(poly, y, n))
    decreases n
  {
    if n > 0 {
      Divide1IsLinear(poly, x, y);
      DivideIsLinear(poly, Divide1(poly, x), Divide1(poly, y), n - 1);
    }
  }

  /** Low zero bits only shift out. */
  lemma {:induction false} DivideShifts(poly: Word, x: Word, n: nat)
    requires n <= 32 && forall i :: 0 <= i < n ==> !x[i]
    ensures Divide(poly, x, n) == Shift(x, n)
    decreases n
  {
    if n > 0 {
      XorZeros(Shift(x, 1));
      DivideShifts(poly, Shift(x, 1), n - 1);
      assert Shift(Shift(x, 1), n - 1) == Shift(x, n);
    } else {
      assert Shift(x, 0) == x;
    }
  }

  function ByteTable(poly: Word): Table {
    b => Divide(poly, ByteAt(b, 0), 8)
  }

  function StrideTable(poly: Word, k: nat): Table
    requires k < 4
  {
    b => Zero16(ByteTable(poly), ByteAt(b, k))
  }

  function TablesOf(poly: Word): Tables {
    Tables(ByteTable(poly), StrideTable(poly, 3), StrideTable(poly, 2), StrideTable(poly, 1), StrideTable(poly, 0))
  }

  lemma ByteTableIsLinear(poly: Word, a: Octet, b: Octet)
    ensures LinearAt(ByteTable(poly), a, b)
  {
    assert ByteAt(Xor(a, b), 0) == Xor(ByteAt(a, 0), ByteAt(b, 0));
    DivideIsLinear(poly, ByteAt(a, 0), ByteAt(b, 0), 8);
  }

  /** The tables of any polynomial satisfy what the fast form needs. */
  lemma TablesAreGood(poly: Word)
    ensures Good(TablesOf(poly))
  {
    var t := ByteTable(poly);
    forall a, b ensures LinearAt(t, a, b) {
      ByteTableIsLinear(poly, a, b);
    }
    assert Linear(t);
  }

  lemma SplitLow(x: Word, b: Octet)
    ensures Xor(x, ByteAt(b, 0)) == Xor(ByteAt(Xor(x[..8], b), 0), Zeros(8) + x[8..])
    ensures Shift(Zeros(8) + x[8..], 8) == Shift(x, 8)
  {
  }

  /** A table step is eight divisions. */
  lemma Step1Divides(poly: Word, l: Word, b: Octet)
    ensures Step1(ByteTable(poly), l, b) == Divide(poly, Xor(l, ByteAt(b, 0)), 8)
  {
    var low, high: Word := ByteAt(Xor(l[..8], b), 0), Zeros(8) + l[8..];
    SplitLow(l, b);
    DivideIsLinear(poly, low, high, 8);
    DivideShifts(poly, high, 8);
  }

  lemma {:induction false} BytewiseIsBitSerial(poly: Word, l: Word, s: Buffer)
    ensures Bytewise(ByteTable(poly), l, s) == BitSerial(poly, l, s)
  {
    if s != [] {
      var n := |s| - 1;
      BytewiseIsBitSerial(poly, l, s[..n]);
      Step1Divides(poly, Bytewise(ByteTable(poly), l, s[..n]), s[n]);
    }
  }

  /** The reflected Castagnoli polynomial, 0x82F63B78: the bits of x^31 first in
      the order of section 12.1 of RFC 3720. */
  const CASTAGNOLI: Word := FromHex([8, 7, 11, 3, 6, 15, 2, 8])

  /** Hexadecimal digits, least significant first. */
  function FromHex(digits: seq<nat>): (r: Bits)
    ensures |r| == 4 * |digits|
  {
    if digits == [] then []
    else
      var d := digits[0];
      [d % 2 == 1, d / 2 % 2 == 1, d / 4 % 2 == 1, d / 8 % 2 == 1] + FromHex(digits[1..])
  }

  /** x^32 + x^28 + x^27 + x^26 + x^25 + x^23 + x^22 + x^20 + x^19 + x^18 + x^14 + x^13 + x^11
      + x^10 + x^9 + x^8 + x^6 + 1, as section 12.1 of RFC 3720 has it. */
  lemma CastagnoliTerms(e: nat)
    requires e < 32
    ensures CASTAGNOLI[31 - e] <==>
      e in {28, 27, 26, 25, 23, 22, 20, 19, 18, 14, 13, 11, 10, 9, 8, 6, 0}
  {
    if e >= 16 {
      HighTerms(e);
    } else {
      LowTerms(e);
    }
  }

  lemma HighTerms(e: nat)
    requires 16 <= e < 32
    ensures CASTAGNOLI[31 - e] <==> e in {28, 27, 26, 25, 23, 22, 20, 19, 18}
  {
    var k := (31 - e) / 4;
    HexAt([8, 7, 11, 3, 6, 15, 2, 8], k);
    if
    case k == 0 => assert e in {31, 30, 29, 28};
    case k == 1 => assert e in {27, 26, 25, 24};
    case k == 2 => assert e in {23, 22, 21, 20};
    case k == 3 => assert e in {19, 18, 17, 16};
  }

  lemma LowTerms(e: nat)
    requires e < 16
    ensures CASTAGNOLI[31 - e] <==> e in {14, 13, 11, 10, 9, 8, 6, 0}
  {
    var k := (31 - e) / 4;
    HexAt([8, 7, 11, 3, 6, 15, 2, 8], k);
    if
    case k == 4 => assert e in {15, 14, 13, 12};
    case k == 5 => assert e in {11, 10, 9, 8};
    case k == 6 => assert e in {7, 6, 5, 4};
    case k == 7 => assert e in {3, 2, 1, 0};
  }

  /** Four bits of a digit. */
  lemma {:induction false} HexAt(digits: seq<nat>, k: nat)
    requires k < |digits|
    ensures var d, b := digits[k], FromHex(digits);
      && b[4 * k] == (d % 2 == 1) && b[4 * k + 1] == (d / 2 % 2 == 1)
      && b[4 * k + 2] == (d / 4 % 2 == 1) && b[4 * k + 3] == (d / 8 % 2 == 1)
  {
    if k > 0 {
      HexAt(digits[1..], k - 1);
    }
  }

  /** The fast form with the Castagnoli tables is bit-serial division. */
  method Crc32c(crc: Word, s: Buffer, address: nat) returns (r: Word)
    ensures r == Xor(BitSerial(CASTAGNOLI, Xor(crc, Ones(32)), s), Ones(32))
  {
    TablesAreGood(CASTAGNOLI);
    BytewiseIsBitSerial(CASTAGNOLI, Xor(crc, Ones(32)), s);
    r := Extend(TablesOf(CASTAGNOLI), crc, s, address);
  }
}
