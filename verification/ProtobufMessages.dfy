/** nanopb messages: descriptors, values, and what encoding and decoding them
    means, as functions. */
module ProtobufMessages {
  import opened InternalKeys
  import opened Coding
  import opened ProtobufWires

  const MAX_REQUIRED_FIELDS: nat := 64

  // Wire types.
  const WT_VARINT: nat := 0
  const WT_64BIT: nat := 1
  const WT_STRING: nat := 2
  const WT_32BIT: nat := 5

  // ---------------------------------------------------------------------
  // Descriptors and values
  // ---------------------------------------------------------------------

  /** Integers have a size in bytes; bytes and strings a capacity. */
  datatype Kind =
    | Bool
    | Varint(size: nat)
    | UVarint(size: nat)
    | SVarint(size: nat)
    | Fixed32
    | Fixed64
    | BytesOf(max: nat)
    | StringOf(max: nat)
    | Message(descriptor: Descriptor)
    | FixedBytes(length: nat)

  /** `Optional` fields have a presence flag, `Singular` ones are left out when
      zero; the members of one union share a storage and a selector. */
  datatype Rule = Required | Optional | Singular | Repeated(max: nat) | OneOf(union: nat)

  datatype Field = Field(tag: nat, rule: Rule, kind: Kind, default: Val)

  datatype Descriptor = Descriptor(fields: seq<Field>)

  datatype Val = Num(n: int) | Data(b: Bytes) | Sub(slots: seq<Slot>)

  /** What a message holds for one field. */
  datatype Slot = One(v: Val) | Maybe(has: bool, v: Val) | Many(vs: seq<Val>)

  predicate Packable(k: Kind) {
    k.Bool? || k.Varint? || k.UVarint? || k.SVarint? || k.Fixed32? || k.Fixed64?
  }

  function WireType(k: Kind): nat {
    match k
    case Fixed32 => WT_32BIT
    case Fixed64 => WT_64BIT
    case BytesOf(_) => WT_STRING
    case StringOf(_) => WT_STRING
    case Message(_) => WT_STRING
    case FixedBytes(_) => WT_STRING
    case _ => WT_VARINT
  }

  // ---------------------------------------------------------------------
  // Defaults
  // ---------------------------------------------------------------------

  function DefaultVal(k: Kind, default: Val): Val
    decreases k, 0
  {
    if k.Message? then Sub(Defaults(k.descriptor)) else default
  }

  function DefaultSlot(f: Field): Slot
    decreases f, 0
  {
    match f.rule
    case Required => One(DefaultVal(f.kind, f.default))
    case Singular => One(DefaultVal(f.kind, f.default))
    case Optional => Maybe(false, DefaultVal(f.kind, f.default))
    case OneOf(_) => Maybe(false, DefaultVal(f.kind, f.default))
    case Repeated(_) => Many([])
  }

  function Defaults(d: Descriptor): (r: seq<Slot>)
    ensures |r| == |d.fields|
    decreases d, 1
  {
    seq(|d.fields|, i requires 0 <= i < |d.fields| => DefaultSlot(d.fields[i]))
  }

  // ---------------------------------------------------------------------
  // Encoding
  // ---------------------------------------------------------------------

  /** A C string ends at its first zero byte. */
  function CString(b: Bytes): (r: Bytes)
    ensures r <= b
  {
    if b == [] || b[0] == 0 then [] else [b[0]] + CString(b[1..])
  }

  function WithLength(b: Bytes): Option<Bytes> {
    if |b| < WORD64 then Some(EncodeVarint(|b|) + b) else None
  }

  function TagBytes(tag: nat, wireType: nat): Bytes {
    EncodeVarint((tag * 8 + wireType) % WORD64)
  }

  predicate IsInt64(n: int) {
    INT64_MIN <= n < -INT64_MIN
  }

  /** Fixed-width fields are copied whatever they hold. */
  function Word(v: Val): int {
    if v.Num? then v.n else 0
  }

  function EncodeVal(k: Kind, v: Val): Option<Bytes>
    decreases k, 0
  {
    match k
    case Bool => if v.Num? then Some(EncodeVarint(if v.n != 0 then 1 else 0)) else None
    case Varint(_) => if v.Num? && IsInt64(v.n) then Some(EncodeVarint(ToUnsigned(v.n))) else None
    case UVarint(_) => if v.Num? && 0 <= v.n < WORD64 then Some(EncodeVarint(v.n)) else None
    case SVarint(_) => if v.Num? && IsInt64(v.n) then Some(EncodeVarint(ZigZag(v.n))) else None
    case Fixed32 => Some(EncodeFixed32(Word(v) % WORD32))
    case Fixed64 => Some(EncodeFixed64(Word(v) % WORD64))
    case BytesOf(max) => if v.Data? && |v.b| <= max then WithLength(v.b) else None
    case StringOf(max) => if v.Data? && |v.b| <= max then WithLength(CString(v.b)) else None
    case FixedBytes(n) => if v.Data? && |v.b| == n then WithLength(v.b) else None
    case Message(d) =>
      if v.Sub? && |v.slots| == |d.fields| then
        match EncodeFields(d, v.slots, |d.fields|)
        case None => None
        case Some(body) => WithLength(body)
      else None
  }

  /** The values one after the other, each behind `prefix`. */
  function EncodeVals(prefix: Bytes, k: Kind, vs: seq<Val>): Option<Bytes>
    decreases k, 1, |vs|
  {
    if vs == [] then Some([])
    else
      var first, more := EncodeVal(k, vs[0]), EncodeVals(prefix, k, vs[1..]);
      if first.None? || more.None? then None else Some(prefix + first.value + more.value)
  }

  /** Is a singular field left out?  For a message, when all its fields are. */
  predicate IsZero(k: Kind, v: Val)
    decreases k, 0
  {
    match k
    case BytesOf(_) => v.Data? && v.b == []
    case StringOf(_) => v.Data? && CString(v.b) == []
    case FixedBytes(n) => n == 0
    case Message(d) =>
      v.Sub? && |v.slots| == |d.fields| && forall i :: 0 <= i < |d.fields| ==> IsZeroSlot(d.fields[i], v.slots[i])
    case _ => v == Num(0)
  }

  predicate IsZeroSlot(f: Field, s: Slot)
    decreases f, 0
  {
    match f.rule
    case Required => false
    case Repeated(_) => s.Many? && s.vs == []
    case Optional => s.Maybe? && !s.has
    case OneOf(_) => s.Maybe? && !s.has
    case Singular => s.One? && IsZero(f.kind, s.v)
  }

  function EncodeTagged(f: Field, v: Val): Option<Bytes>
    decreases f, 0
  {
    match EncodeVal(f.kind, v)
    case None => None
    case Some(e) => Some(TagBytes(f.tag, WireType(f.kind)) + e)
  }

  function EncodeField(f: Field, s: Slot): Option<Bytes>
    decreases f, 1
  {
    match f.rule
    case Required => if s.One? then EncodeTagged(f, s.v) else None
    case Optional => if s.Maybe? then (if s.has then EncodeTagged(f, s.v) else Some([])) else None
    case OneOf(_) => if s.Maybe? then (if s.has then EncodeTagged(f, s.v) else Some([])) else None
    case Singular => if s.One? then (if IsZero(f.kind, s.v) then Some([]) else EncodeTagged(f, s.v)) else None
    case Repeated(max) => if s.Many? then EncodeArray(f, s.vs, max) else None
  }

  /** Arrays of numbers are packed into one length-delimited record. */
  function EncodeArray(f: Field, vs: seq<Val>, max: nat): Option<Bytes>
    decreases f, 0
  {
    if vs == [] then Some([])
    else if |vs| > max then None
    else if Packable(f.kind) then
      match EncodeVals([], f.kind, vs)
      case None => None
      case Some(body) =>
        if |body| >= WORD64 then None else Some(TagBytes(f.tag, WT_STRING) + (EncodeVarint(|body|) + body))
    else EncodeVals(TagBytes(f.tag, WireType(f.kind)), f.kind, vs)
  }

  /** The first `n` fields, in descriptor order. */
  function EncodeFields(d: Descriptor, slots: seq<Slot>, n: nat): Option<Bytes>
    requires n <= |slots| == |d.fields|
    decreases d, n
  {
    if n == 0 then Some([])
    else
      var before, last := EncodeFields(d, slots, n - 1), EncodeField(d.fields[n - 1], slots[n - 1]);
      if before.None? || last.None? then None else Some(before.value + last.value)
  }

  function Encode(d: Descriptor, slots: seq<Slot>): Option<Bytes>
    requires |slots| == |d.fields|
  {
    EncodeFields(d, slots, |d.fields|)
  }

  // ---------------------------------------------------------------------
  // Decoding
  // ---------------------------------------------------------------------

  function SkipVarint(b: Bytes): (r: Option<Bytes>)
    ensures r.Some? ==> |r.value| <= |b|
  {
    if b == [] then None else if b[0] < 128 then Some(b[1..]) else SkipVarint(b[1..])
  }

  /** A length and the bytes it covers. */
  function Substream(b: Bytes): (r: Option<Decoded<Bytes>>)
    ensures r.Some? ==> |r.value.rest| <= |b| && |r.value.value| <= |b|
  {
    match DecodeVarint32(b)
    case None => None
    case Some(Decoded(n, rest)) => if |rest| < n then None else Some(Decoded(rest[..n], rest[n..]))
  }

  /** Skipping a field that the descriptor does not have. */
  function SkipField(wireType: nat, b: Bytes): (r: Option<Bytes>)
    ensures r.Some? ==> |r.value| <= |b|
  {
    if wireType == WT_VARINT then SkipVarint(b)
    else if wireType == WT_64BIT then if |b| < 8 then None else Some(b[8..])
    else if wireType == WT_STRING then
      var s := Substream(b);
      if s.None? then None else Some(s.value.rest)
    else if wireType == WT_32BIT then if |b| < 4 then None else Some(b[4..])
    else None
  }

  function SkipBool(b: Bytes): (r: Option<Bytes>)
    ensures r.Some? ==> |r.value| < |b|
  {
    var v := DecodeVarint32(b);
    if v.None? then None else Some(v.value.rest)
  }

  /** A record that no field has.  In a message without fields the end marker,
      whose tag is 0, is taken for a required boolean; nobody asks for it later. */
  function SkipUnknown(d: Descriptor, tag: nat, wireType: nat, b: Bytes): (r: Option<Bytes>)
    ensures r.Some? ==> |r.value| <= |b|
  {
    if d.fields == [] && tag == 0 then SkipBool(b) else SkipField(wireType, b)
  }

  predicate InSigned(n: int, size: nat) {
    (size == 1 && -0x80 <= n < 0x80) || (size == 2 && -0x8000 <= n < 0x8000)
    || (size == 4 && INT32_MIN <= n < -INT32_MIN) || (size == 8 && IsInt64(n))
  }

  predicate InUnsigned(n: int, size: nat) {
    (size == 1 && 0 <= n < 0x100) || (size == 2 && 0 <= n < 0x1_0000)
    || (size == 4 && 0 <= n < WORD32) || (size == 8 && 0 <= n < WORD64)
  }

  /** Numbers; a value that its field cannot hold is an error. */
  function DecodeNumber(k: Kind, b: Bytes): (r: Option<Decoded<Val>>)
    requires Packable(k)
    ensures r.Some? ==> |r.value.rest| < |b|
  {
    match k
    case Bool =>
      var v := DecodeVarint32(b);
      if v.None? then None else Some(Decoded(Num(if v.value.value != 0 then 1 else 0), v.value.rest))
    case Varint(size) =>
      var v := DecodeVarint64(b);
      if v.None? then None
      else
        var n := if size == 8 then ToSigned(v.value.value) else ToSigned32(v.value.value);
        if InSigned(n, size) then Some(Decoded(Num(n), v.value.rest)) else None
    case UVarint(size) =>
      var v := DecodeVarint64(b);
      if v.Some? && InUnsigned(v.value.value, size) then Some(Decoded(Num(v.value.value), v.value.rest)) else None
    case SVarint(size) =>
      var v := DecodeVarint64(b);
      if v.Some? && InSigned(UnZigZag(v.value.value), size) then
        Some(Decoded(Num(UnZigZag(v.value.value)), v.value.rest))
      else None
    case Fixed32 => if |b| < 4 then None else Some(Decoded(Num(DecodeFixed32(b)), b[4..]))
    case Fixed64 => if |b| < 8 then None else Some(Decoded(Num(DecodeFixed64(b)), b[8..]))
  }

  /** Bytes and strings that fit their capacity. */
  function DecodeData(k: Kind, b: Bytes): (r: Option<Decoded<Val>>)
    requires k.BytesOf? || k.StringOf? || k.FixedBytes?
    ensures r.Some? ==> |r.value.rest| <= |b|
  {
    var s := Substream(b);
    if s.None? then None
    else
      var data, rest := s.value.value, s.value.rest;
      match k
      case BytesOf(max) => if |data| > max then None else Some(Decoded(Data(data), rest))
      case StringOf(max) => if |data| > max then None else Some(Decoded(Data(data), rest))
      case FixedBytes(n) =>
        if data == [] then Some(Decoded(Data(seq(n, _ => 0)), rest))
        else if |data| != n then None else Some(Decoded(Data(data), rest))
  }

  /** What a submessage is decoded on top of. */
  function SlotsOf(d: Descriptor, current: Val): (r: seq<Slot>)
    ensures |r| == |d.fields|
  {
    if current.Sub? && |current.slots| == |d.fields| then current.slots else Defaults(d)
  }

  function DecodeVal(k: Kind, b: Bytes, current: Val): (r: Option<Decoded<Val>>)
    ensures r.Some? ==> |r.value.rest| <= |b|
    ensures r.Some? && Packable(k) ==> |r.value.rest| < |b|
    decreases k, 0
  {
    if Packable(k) then DecodeNumber(k, b)
    else if k.Message? then
      match Substream(b)
      case None => None
      case Some(Decoded(body, rest)) =>
        match Decode(k.descriptor, body, SlotsOf(k.descriptor, current))
        case None => None
        case Some(slots) => Some(Decoded(Sub(slots), rest))
    else DecodeData(k, b)
  }

  /** The loop over a packed array: all of it, and no more than `max` items. */
  function DecodePacked(k: Kind, b: Bytes, vs: seq<Val>, max: nat): Option<seq<Val>>
    requires Packable(k)
    decreases |b|
  {
    if b == [] then Some(vs)
    else if |vs| >= max then None
    else
      match DecodeNumber(k, b)
      case None => None
      case Some(Decoded(v, rest)) => DecodePacked(k, rest, vs + [v], max)
  }

  function Current(f: Field, s: Slot): Val {
    match s
    case One(v) => v
    case Maybe(_, v) => v
    case Many(_) => f.default
  }

  /** One field with this tag has come in; the wire type only tells packed arrays apart. */
  function DecodeSlot(f: Field, wireType: nat, b: Bytes, s: Slot): (r: Option<Decoded<Slot>>)
    ensures r.Some? ==> |r.value.rest| <= |b|
    decreases f, 0
  {
    match f.rule
    case Required =>
      var v := DecodeVal(f.kind, b, Current(f, s));
      if v.None? then None else Some(Decoded(One(v.value.value), v.value.rest))
    case Singular =>
      var v := DecodeVal(f.kind, b, Current(f, s));
      if v.None? then None else Some(Decoded(One(v.value.value), v.value.rest))
    case Optional =>
      var v := DecodeVal(f.kind, b, Current(f, s));
      if v.None? then None else Some(Decoded(Maybe(true, v.value.value), v.value.rest))
    case OneOf(_) =>
      var v := DecodeVal(f.kind, b, DefaultVal(f.kind, f.default));
      if v.None? then None else Some(Decoded(Maybe(true, v.value.value), v.value.rest))
    case Repeated(max) =>
      var vs := if s.Many? then s.vs else [];
      if wireType == WT_STRING && Packable(f.kind) then
        var sub := Substream(b);
        if sub.None? then None
        else
          var all := DecodePacked(f.kind, sub.value.value, vs, max);
          if all.None? then None else Some(Decoded(Many(all.value), sub.value.rest))
      else if |vs| >= max then None
      else
        var v := DecodeVal(f.kind, b, DefaultVal(f.kind, f.default));
        if v.None? then None else Some(Decoded(Many(vs + [v.value.value]), v.value.rest))
  }

  predicate DistinctTags(d: Descriptor) {
    forall i, j :: 0 <= i < j < |d.fields| ==> d.fields[i].tag != d.fields[j].tag
  }

  /** The first field with this tag. */
  function Find(d: Descriptor, tag: nat): (r: Option<nat>)
    ensures r.Some? ==> r.value < |d.fields| && d.fields[r.value].tag == tag
    ensures r.None? ==> forall i :: 0 <= i < |d.fields| ==> d.fields[i].tag != tag
    ensures r.Some? ==> forall i :: 0 <= i < r.value ==> d.fields[i].tag != tag
  {
    FindFrom(d, tag, 0)
  }

  function FindFrom(d: Descriptor, tag: nat, from: nat): (r: Option<nat>)
    requires from <= |d.fields|
    ensures r.Some? ==> from <= r.value < |d.fields| && d.fields[r.value].tag == tag
    ensures r.None? ==> forall i :: from <= i < |d.fields| ==> d.fields[i].tag != tag
    ensures r.Some? ==> forall i :: from <= i < r.value ==> d.fields[i].tag != tag
    decreases |d.fields| - from
  {
    if from == |d.fields| then None
    else if d.fields[from].tag == tag then Some(from)
    else FindFrom(d, tag, from + 1)
  }

  /** How many required fields come before field `i`. */
  function RequiredBefore(d: Descriptor, i: nat): nat
    requires i <= |d.fields|
  {
    if i == 0 then 0 else RequiredBefore(d, i - 1) + if d.fields[i - 1].rule.Required? then 1 else 0
  }

  lemma {:induction false} RequiredIndexGrows(d: Descriptor, i: nat, j: nat)
    requires i <= j <= |d.fields|
    ensures RequiredBefore(d, i) <= RequiredBefore(d, j)
    ensures i < j && d.fields[i].rule.Required? ==> RequiredBefore(d, i) < RequiredBefore(d, j)
    decreases j
  {
    if i < j {
      RequiredIndexGrows(d, i, j - 1);
    }
  }

  /** The message so far, and which required fields (by index) were seen. */
  datatype Progress = Progress(slots: seq<Slot>, seen: set<nat>)

  /** Storing a slot; choosing one member of a union drops the others. */
  function Store(d: Descriptor, slots: seq<Slot>, i: nat, s: Slot): (r: seq<Slot>)
    requires i < |slots| == |d.fields|
    ensures |r| == |slots|
  {
    seq(|slots|, j requires 0 <= j < |slots| =>
      if j == i then s
      else if d.fields[i].rule.OneOf? && d.fields[j].rule == d.fields[i].rule then DefaultSlot(d.fields[j])
      else slots[j])
  }

  function MarkSeen(d: Descriptor, seen: set<nat>, i: nat): set<nat>
    requires i < |d.fields|
  {
    if d.fields[i].rule.Required? && RequiredBefore(d, i) < MAX_REQUIRED_FIELDS then seen + {RequiredBefore(d, i)}
    else seen
  }

  /** The loop of `pb_decode_noinit`.  A zero tag ends a message early. */
  function DecodeFields(d: Descriptor, b: Bytes, st: Progress): (r: Option<Progress>)
    requires |st.slots| == |d.fields|
    ensures r.Some? ==> |r.value.slots| == |d.fields|
    decreases d, |b|
  {
    if b == [] then Some(st)
    else
      match DecodeVarint32(b)
      case None => None
      case Some(Decoded(temp, rest)) =>
        if temp == 0 then Some(st)
        else
          match Find(d, temp / 8)
          case None =>
            var skipped := SkipUnknown(d, temp / 8, temp % 8, rest);
            if skipped.None? then None else DecodeFields(d, skipped.value, st)
          case Some(i) =>
            var s := DecodeSlot(d.fields[i], temp % 8, rest, st.slots[i]);
            if s.None? then None
            else DecodeFields(d, s.value.rest, Progress(Store(d, st.slots, i, s.value.value), MarkSeen(d, st.seen, i)))
  }

  predicate AllSeen(d: Descriptor, seen: set<nat>) {
    forall i :: 0 <= i < RequiredBefore(d, |d.fields|) && i < MAX_REQUIRED_FIELDS ==> i in seen
  }

  /** `pb_decode_noinit` */
  function Decode(d: Descriptor, b: Bytes, start: seq<Slot>): (r: Option<seq<Slot>>)
    requires |start| == |d.fields|
    ensures r.Some? ==> |r.value| == |d.fields|
    decreases d, |b| + 1
  {
    match DecodeFields(d, b, Progress(start, {}))
    case None => None
    case Some(st) => if AllSeen(d, st.seen) then Some(st.slots) else None
  }

  /** `pb_decode` */
  function DecodeMessage(d: Descriptor, b: Bytes): Option<seq<Slot>> {
    Decode(d, b, Defaults(d))
  }
}
