/** The size of an encoded message, and a message sent and received. */
module ProtobufSizes {
  import opened InternalKeys
  import opened Coding
  import opened ProtobufWires
  import opened ProtobufMessages
  import opened ProtobufRecords
  import opened ProtobufRoundTrips
  import opened ProtobufStreams
  import opened ProtobufDecoders

  // ---------------------------------------------------------------------
  // Sizes
  // ---------------------------------------------------------------------

  /** The number of seven-bit groups. */
  function VarintSize(n: nat): nat {
    if n < 128 then 1 else 1 + VarintSize(n / 128)
  }

  lemma {:induction false} VarintSizeIsLength(n: nat)
    ensures |EncodeVarint(n)| == VarintSize(n)
  {
    if n >= 128 {
      VarintSizeIsLength(n / 128);
    }
  }

  /** A length and what it counts. */
  function Prefixed(n: nat): nat {
    VarintSize(n) + n
  }

  function SizeVal(k: Kind, v: Val): nat
    decreases k, 0
  {
    match k
    case Bool => 1
    case Varint(_) => if v.Num? && IsInt64(v.n) then VarintSize(ToUnsigned(v.n)) else 0
    case UVarint(_) => if v.Num? && v.n >= 0 then VarintSize(v.n) else 0
    case SVarint(_) => if v.Num? && IsInt64(v.n) then VarintSize(ZigZag(v.n)) else 0
    case Fixed32 => 4
    case Fixed64 => 8
    case BytesOf(_) => if v.Data? then Prefixed(|v.b|) else 0
    case StringOf(_) => if v.Data? then Prefixed(|CString(v.b)|) else 0
    case FixedBytes(n) => Prefixed(n)
    case Message(d) =>
      if v.Sub? && |v.slots| == |d.fields| then Prefixed(SizeFields(d, v.slots, |d.fields|)) else 0
  }

  function SizeVals(prefix: nat, k: Kind, vs: seq<Val>): nat
    decreases k, 1, |vs|
  {
    if vs == [] then 0 else prefix + SizeVal(k, vs[0]) + SizeVals(prefix, k, vs[1..])
  }

  function TagSize(tag: nat, wireType: nat): nat {
    VarintSize((tag * 8 + wireType) % WORD64)
  }

  function SizeField(f: Field, s: Slot): nat
    decreases f, 1
  {
    match s
    case One(v) =>
      if f.rule.Singular? && IsZero(f.kind, v) then 0 else TagSize(f.tag, WireType(f.kind)) + SizeVal(f.kind, v)
    case Maybe(has, v) => if has then TagSize(f.tag, WireType(f.kind)) + SizeVal(f.kind, v) else 0
    case Many(vs) =>
      if vs == [] then 0
      else if Packable(f.kind) then TagSize(f.tag, WT_STRING) + Prefixed(SizeVals(0, f.kind, vs))
      else SizeVals(TagSize(f.tag, WireType(f.kind)), f.kind, vs)
  }

  function SizeFields(d: Descriptor, slots: seq<Slot>, n: nat): nat
    requires n <= |slots| == |d.fields|
    decreases d, n
  {
    if n == 0 then 0 else SizeFields(d, slots, n - 1) + SizeField(d.fields[n - 1], slots[n - 1])
  }

  /** `b` was produced and has the size foretold. */
  predicate HasSize(b: Option<Bytes>, size: nat) {
    b.Some? && |b.value| == size
  }

  lemma WithLengthSize(b: Bytes)
    requires |b| < WORD64
    ensures HasSize(WithLength(b), Prefixed(|b|))
  {
    VarintSizeIsLength(|b|);
  }

  lemma TagBytesSize(tag: nat, wireType: nat)
    ensures |TagBytes(tag, wireType)| == TagSize(tag, wireType)
  {
    VarintSizeIsLength((tag * 8 + wireType) % WORD64);
  }

  /** Everything that fits is encoded, in exactly the size foretold. */
  lemma ValSize(k: Kind, v: Val)
    requires FitsVal(k, v) && SizeVal(k, v) < WORD64
    ensures HasSize(EncodeVal(k, v), SizeVal(k, v))
    decreases k, 0
  {
    match k
    case Bool => VarintSizeIsLength(if v.n != 0 then 1 else 0);
    case Varint(_) => VarintSizeIsLength(ToUnsigned(v.n));
    case UVarint(_) => VarintSizeIsLength(v.n);
    case SVarint(_) => VarintSizeIsLength(ZigZag(v.n));
    case Fixed32 =>
    case Fixed64 =>
    case BytesOf(_) => WithLengthSize(v.b);
    case StringOf(_) => WithLengthSize(CString(v.b));
    case FixedBytes(_) => WithLengthSize(v.b);
    case Message(d) =>
      FieldsSize(d, v.slots, |d.fields|);
      WithLengthSize(EncodeFields(d, v.slots, |d.fields|).value);
  }

  lemma ValsSize(prefix: Bytes, k: Kind, vs: seq<Val>)
    requires (forall i :: 0 <= i < |vs| ==> FitsVal(k, vs[i])) && SizeVals(|prefix|, k, vs) < WORD64
    ensures HasSize(EncodeVals(prefix, k, vs), SizeVals(|prefix|, k, vs))
    decreases k, 1, |vs|
  {
    if vs != [] {
      ValSize(k, vs[0]);
      ValsSize(prefix, k, vs[1..]);
    }
  }

  lemma FieldSize(f: Field, s: Slot)
    requires FitsSlot(f, s) && SizeField(f, s) < WORD64
    ensures HasSize(EncodeField(f, s), SizeField(f, s))
    decreases f, 1
  {
    TagBytesSize(f.tag, WireType(f.kind));
    TagBytesSize(f.tag, WT_STRING);
    if !IsPresent(f, s) {
      NotPresentIsEmpty(f, s);
    } else if f.rule.Repeated? {
      if Packable(f.kind) {
        ValsSize([], f.kind, s.vs);
        VarintSizeIsLength(SizeVals(0, f.kind, s.vs));
      } else {
        ValsSize(TagBytes(f.tag, WireType(f.kind)), f.kind, s.vs);
      }
    } else {
      ValSize(f.kind, s.v);
    }
  }

  lemma FieldsSize(d: Descriptor, m: seq<Slot>, n: nat)
    requires Fits(d, m) && n <= |m| && SizeFields(d, m, n) < WORD64
    ensures HasSize(EncodeFields(d, m, n), SizeFields(d, m, n))
    decreases d, n
  {
    if n > 0 {
      FieldsSize(d, m, n - 1);
      FieldSize(d.fields[n - 1], m[n - 1]);
    }
  }

  // ---------------------------------------------------------------------
  // Sending and receiving
  // ---------------------------------------------------------------------

  /** Every message that fits its descriptor and the buffer arrives: encoded in
      two passes, decoded record by record. */
  method SendAndReceive(d: Descriptor, m: seq<Slot>, capacity: nat) returns (r: Option<seq<Slot>>)
    requires Good(d) && Fits(d, m)
    requires SizeFields(d, m, |m|) <= capacity && SizeFields(d, m, |m|) < WORD32
    ensures r == Some(Expected(d, m))
    ensures ZeroDefaults(d) && Plain(d, m) ==> r == Some(m)
  {
    FieldsSize(d, m, |m|);
    var ok, buffer := EncodeToBuffer(d, m, capacity);
    MessageRoundTrip(d, m);
    r := DecodeNoInit(d, buffer, Defaults(d));
    if ZeroDefaults(d) && Plain(d, m) {
      PlainIsExpected(d, m);
    }
  }
}
