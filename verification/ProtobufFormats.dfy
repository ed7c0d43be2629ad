/** The Protocol Buffers wire format in plain numbers, and what is written against it. */
module ProtobufFormats {
  import opened InternalKeys
  import opened Coding
  import opened ProtobufWires
  import opened ProtobufMessages
  import opened ProtobufRecords

  // ---------------------------------------------------------------------
  // The format
  // ---------------------------------------------------------------------

  /** A key, the varint of 8 * tag + wire type, and a payload. */
  ghost predicate IsRecord(b: Bytes, tag: nat, wireType: nat, payload: Bytes) {
    exists key :: IsVarint(key, 8 * tag + wireType) && b == key + payload
  }

  /** How a value is written, and under which wire type. */
  ghost predicate IsPayload(k: Kind, v: Val, wireType: nat, b: Bytes)
    decreases k, 0
  {
    match k
    case Bool => wireType == 0 && v.Num? && IsVarint(b, if v.n == 0 then 0 else 1)
    case Varint(_) =>
      wireType == 0 && v.Num? && IsVarint(b, if v.n < 0 then v.n + 18446744073709551616 else v.n)
    case UVarint(_) => wireType == 0 && v.Num? && IsVarint(b, v.n)
    case SVarint(_) => wireType == 0 && v.Num? && IsVarint(b, if v.n < 0 then -2 * v.n - 1 else 2 * v.n)
    case Fixed32 => wireType == 5 && |b| == 4 && LittleEndian(b) == Word(v) % 4294967296
    case Fixed64 => wireType == 1 && |b| == 8 && LittleEndian(b) == Word(v) % 18446744073709551616
    case BytesOf(_) => wireType == 2 && v.Data? && IsPrefixed(b, v.b)
    case StringOf(_) => wireType == 2 && v.Data? && IsPrefixed(b, CString(v.b))
    case FixedBytes(_) => wireType == 2 && v.Data? && IsPrefixed(b, v.b)
    case Message(d) =>
      && wireType == 2 && v.Sub? && |v.slots| == |d.fields|
      && exists body :: IsMessage(d, v.slots, body) && IsPrefixed(b, body)
  }

  ghost predicate IsTagged(f: Field, v: Val, b: Bytes)
    decreases f, 0
  {
    exists wireType, payload :: IsPayload(f.kind, v, wireType, payload) && IsRecord(b, f.tag, wireType, payload)
  }

  ghost predicate HasPayload(k: Kind, v: Val, b: Bytes)
    decreases k, 1
  {
    exists wireType :: IsPayload(k, v, wireType, b)
  }

  /** The payload of value `i` is part `i`. */
  ghost predicate ArePayloads(k: Kind, vs: seq<Val>, parts: seq<Bytes>)
    decreases k, 2
  {
    |parts| == |vs| && forall i :: 0 <= i < |vs| ==> HasPayload(k, vs[i], parts[i])
  }

  /** An array: one record under wire type 2 for numbers, else one record per item. */
  ghost predicate IsArray(f: Field, vs: seq<Val>, b: Bytes)
    decreases f, 1
  {
    if vs == [] then b == []
    else if f.kind.BytesOf? || f.kind.StringOf? || f.kind.FixedBytes? || f.kind.Message? then
      exists parts ::
        |parts| == |vs| && (forall i :: 0 <= i < |vs| ==> IsTagged(f, vs[i], parts[i])) && b == Joined(parts)
    else
      exists parts, payload ::
        ArePayloads(f.kind, vs, parts) && IsPrefixed(payload, Joined(parts)) && IsRecord(b, f.tag, 2, payload)
  }

  ghost predicate IsField(f: Field, s: Slot, b: Bytes)
    decreases f, 2
  {
    match f.rule
    case Required => s.One? && IsTagged(f, s.v, b)
    case Singular => s.One? && if IsZero(f.kind, s.v) then b == [] else IsTagged(f, s.v, b)
    case Optional => s.Maybe? && if s.has then IsTagged(f, s.v, b) else b == []
    case OneOf(_) => s.Maybe? && if s.has then IsTagged(f, s.v, b) else b == []
    case Repeated(_) => s.Many? && IsArray(f, s.vs, b)
  }

  /** A message is its fields, in descriptor order. */
  ghost predicate IsMessage(d: Descriptor, slots: seq<Slot>, b: Bytes)
    requires |slots| == |d.fields|
    decreases d, 3
  {
    exists parts ::
      && |parts| == |slots| && b == Joined(parts)
      && forall i :: 0 <= i < |slots| ==> IsField(d.fields[i], slots[i], parts[i])
  }

  // ---------------------------------------------------------------------
  // What is written has that format
  // ---------------------------------------------------------------------

  lemma PrefixFormat(b: Bytes)
    requires WithLength(b).Some?
    ensures IsPrefixed(WithLength(b).value, b)
  {
    VarintIsBase128(|b|);
  }

  /** The tag fits the wire format. */
  predicate GoodTag(tag: nat) {
    1 <= tag <= MAX_TAG
  }

  lemma KeyFormat(tag: nat, wireType: nat, payload: Bytes)
    requires GoodTag(tag) && wireType < 8
    ensures IsRecord(TagBytes(tag, wireType) + payload, tag, wireType, payload)
  {
    SmallModulo(tag * 8 + wireType, WORD64);
    VarintIsBase128(tag * 8 + wireType);
  }

  /** All tags, those of submessages included, fit the wire format. */
  predicate GoodTags(d: Descriptor)
    decreases d, 1
  {
    forall i :: 0 <= i < |d.fields| ==> GoodTag(d.fields[i].tag) && GoodTagsIn(d.fields[i].kind)
  }

  predicate GoodTagsIn(k: Kind)
    decreases k, 0
  {
    k.Message? ==> GoodTags(k.descriptor)
  }

  lemma PayloadFormat(k: Kind, v: Val)
    requires GoodTagsIn(k) && EncodeVal(k, v).Some?
    ensures IsPayload(k, v, WireType(k), EncodeVal(k, v).value)
    decreases k, 0
  {
    match k
    case Bool => VarintIsBase128(if v.n != 0 then 1 else 0);
    case Varint(_) => VarintIsBase128(ToUnsigned(v.n));
    case UVarint(_) => VarintIsBase128(v.n);
    case SVarint(_) =>
      ZigZagRoundTrip(v.n);
      VarintIsBase128(ZigZag(v.n));
    case Fixed32 => Fixed32IsLittleEndian(Word(v) % WORD32);
    case Fixed64 => Fixed64IsLittleEndian(Word(v) % WORD64);
    case BytesOf(_) => PrefixFormat(v.b);
    case StringOf(_) => PrefixFormat(CString(v.b));
    case FixedBytes(_) => PrefixFormat(v.b);
    case Message(d) =>
      var body := EncodeFields(d, v.slots, |d.fields|).value;
      MessageFormat(d, v.slots);
      PrefixFormat(body);
  }

  /** A tagged value is the varint of 8 * tag + 0, 1, 2 or 5, by its kind, and its payload. */
  lemma TaggedFormat(f: Field, v: Val)
    requires GoodTag(f.tag) && GoodTagsIn(f.kind) && EncodeTagged(f, v).Some?
    ensures IsTagged(f, v, EncodeTagged(f, v).value)
    decreases f, 0
  {
    PayloadFormat(f.kind, v);
    KeyFormat(f.tag, WireType(f.kind), EncodeVal(f.kind, v).value);
  }

  lemma PackedFormat(k: Kind, vs: seq<Val>) returns (parts: seq<Bytes>)
    requires Packable(k) && EncodeVals([], k, vs).Some?
    ensures ArePayloads(k, vs, parts) && EncodeVals([], k, vs).value == Joined(parts)
    decreases k, 1, |vs|
  {
    if vs == [] {
      parts := [];
    } else {
      var first := EncodeVal(k, vs[0]).value;
      var more := PackedFormat(k, vs[1..]);
      PayloadFormat(k, vs[0]);
      JoinedOne(first, more);
      parts := [first] + more;
      assert [] + first + Joined(more) == first + Joined(more);
      assert HasPayload(k, vs[0], first);
      MorePayloads(k, vs, first, more);
    }
  }

  lemma MorePayloads(k: Kind, vs: seq<Val>, first: Bytes, more: seq<Bytes>)
    requires vs != [] && HasPayload(k, vs[0], first) && ArePayloads(k, vs[1..], more)
    ensures ArePayloads(k, vs, [first] + more)
  {
    forall i | 0 <= i < |vs| ensures HasPayload(k, vs[i], ([first] + more)[i]) {
      assert i > 0 ==> vs[i] == vs[1..][i - 1];
    }
  }

  lemma ItemsFormat(f: Field, vs: seq<Val>) returns (parts: seq<Bytes>)
    requires GoodTag(f.tag) && GoodTagsIn(f.kind)
    requires EncodeVals(TagBytes(f.tag, WireType(f.kind)), f.kind, vs).Some?
    ensures |parts| == |vs| && (forall i :: 0 <= i < |vs| ==> IsTagged(f, vs[i], parts[i]))
    ensures EncodeVals(TagBytes(f.tag, WireType(f.kind)), f.kind, vs).value == Joined(parts)
    decreases f, 1, |vs|
  {
    if vs == [] {
      parts := [];
    } else {
      var first := TagBytes(f.tag, WireType(f.kind)) + EncodeVal(f.kind, vs[0]).value;
      var more := ItemsFormat(f, vs[1..]);
      TaggedFormat(f, vs[0]);
      JoinedOne(first, more);
      parts := [first] + more;
      forall i | 0 <= i < |vs| ensures IsTagged(f, vs[i], parts[i]) {
        assert i > 0 ==> vs[i] == vs[1..][i - 1] && parts[i] == more[i - 1];
      }
    }
  }

  lemma FieldFormat(f: Field, s: Slot)
    requires GoodTag(f.tag) && GoodTagsIn(f.kind) && EncodeField(f, s).Some?
    ensures IsField(f, s, EncodeField(f, s).value)
    decreases f, 2
  {
    if f.rule.Repeated? {
      if s.vs != [] {
        ArrayFormat(f, s.vs);
      }
    } else if EncodeTagged(f, s.v).Some? {
      TaggedFormat(f, s.v);
    }
  }

  lemma ArrayFormat(f: Field, vs: seq<Val>)
    requires GoodTag(f.tag) && GoodTagsIn(f.kind) && f.rule.Repeated? && vs != []
    requires EncodeArray(f, vs, f.rule.max).Some?
    ensures IsArray(f, vs, EncodeArray(f, vs, f.rule.max).value)
    decreases f, 1, |vs| + 1
  {
    if Packable(f.kind) {
      var parts := PackedFormat(f.kind, vs);
      PrefixFormat(Joined(parts));
      KeyFormat(f.tag, 2, EncodeVarint(|Joined(parts)|) + Joined(parts));
    } else {
      var parts := ItemsFormat(f, vs);
    }
  }

  lemma FieldsFormat(d: Descriptor, slots: seq<Slot>, n: nat) returns (parts: seq<Bytes>)
    requires GoodTags(d) && n <= |slots| == |d.fields| && EncodeFields(d, slots, n).Some?
    ensures |parts| == n && (forall i :: 0 <= i < n ==> IsField(d.fields[i], slots[i], parts[i]))
    ensures EncodeFields(d, slots, n).value == Joined(parts)
    decreases d, n
  {
    if n == 0 {
      parts := [];
    } else {
      var before := FieldsFormat(d, slots, n - 1);
      var last := EncodeField(d.fields[n - 1], slots[n - 1]).value;
      FieldFormat(d.fields[n - 1], slots[n - 1]);
      parts := before + [last];
      assert parts[..n - 1] == before;
    }
  }

  /** An encoded message has the wire format. */
  lemma MessageFormat(d: Descriptor, slots: seq<Slot>)
    requires GoodTags(d) && |slots| == |d.fields| && Encode(d, slots).Some?
    ensures IsMessage(d, slots, Encode(d, slots).value)
    decreases d, |slots| + 1
  {
    var parts := FieldsFormat(d, slots, |slots|);
  }
}
