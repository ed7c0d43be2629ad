/** The nanopb encoder: it writes to a bounded stream, and measures every
    submessage in a pass of its own before it writes its length. */
module ProtobufStreams {
  import opened InternalKeys
  import opened Coding
  import opened ProtobufWires
  import opened ProtobufMessages
  import opened ProtobufFormats

  /** A sizing stream only counts. */
  class OStream {
    const sizing: bool
    const maxSize: nat
    var bytesWritten: nat
    var output: Bytes

    ghost predicate Valid()
      reads this
    {
      !sizing ==> bytesWritten <= maxSize
    }

    /** A stream over a buffer, or a substream that goes on where another stream is. */
    constructor (output: Bytes, maxSize: nat)
      ensures Valid() && !sizing && bytesWritten == 0 && this.output == output && this.maxSize == maxSize
    {
      this.sizing, this.maxSize, this.bytesWritten, this.output := false, maxSize, 0, output;
    }

    constructor Sizing()
      ensures Valid() && sizing && bytesWritten == 0
    {
      sizing, maxSize, bytesWritten, output := true, 0, 0, [];
    }

    ghost predicate HasRoom(written: nat, n: nat) {
      sizing || written + n <= maxSize
    }

    ghost function After(before: Bytes, e: Bytes): Bytes {
      if sizing then before else before + e
    }

    method Write(b: Bytes) returns (ok: bool)
      requires Valid()
      modifies this`bytesWritten, this`output
      ensures Valid()
      ensures ok <==> HasRoom(old(bytesWritten), |b|)
      ensures ok ==> bytesWritten == old(bytesWritten) + |b| && output == After(old(output), b)
      ensures !ok ==> bytesWritten == old(bytesWritten)
    {
      if |b| > 0 && !sizing {
        if bytesWritten + |b| > maxSize {
          return false;
        }
        output := output + b;
      }
      bytesWritten := bytesWritten + |b|;
      ok := true;
    }

    /** `pb_write` without data, which only a sizing stream does. */
    method Count(n: nat)
      requires Valid() && sizing
      modifies this`bytesWritten
      ensures Valid() && bytesWritten == old(bytesWritten) + n
    {
      bytesWritten := bytesWritten + n;
    }

    method WriteVarint(value: Word64) returns (ok: bool)
      requires Valid()
      modifies this`bytesWritten, this`output
      ensures Valid()
      ensures ok <==> HasRoom(old(bytesWritten), |EncodeVarint(value)|)
      ensures ok ==> bytesWritten == old(bytesWritten) + |EncodeVarint(value)|
                     && output == After(old(output), EncodeVarint(value))
    {
      var buffer := EncodeVarintLoop(value);
      ok := Write(buffer);
    }

    method WriteTag(tag: nat, wireType: nat) returns (ok: bool)
      requires Valid()
      modifies this`bytesWritten, this`output
      ensures Valid()
      ensures ok <==> HasRoom(old(bytesWritten), |TagBytes(tag, wireType)|)
      ensures ok ==> bytesWritten == old(bytesWritten) + |TagBytes(tag, wireType)|
                     && output == After(old(output), TagBytes(tag, wireType))
    {
      ok := WriteVarint((tag * 8 + wireType) % WORD64);
    }

    /** `pb_encode_string`: a length and the bytes. */
    method WriteString(b: Bytes) returns (ok: bool)
      requires Valid()
      modifies this`bytesWritten, this`output
      ensures Valid()
      ensures ok <==> WithLength(b).Some? && HasRoom(old(bytesWritten), |WithLength(b).value|)
      ensures ok ==> bytesWritten == old(bytesWritten) + |WithLength(b).value|
                     && output == After(old(output), WithLength(b).value)
    {
      if |b| >= WORD64 {
        return false;
      }
      ok := WriteVarint(|b|);
      if ok {
        ok := Write(b);
        assert old(output) + EncodeVarint(|b|) + b == old(output) + (EncodeVarint(|b|) + b);
      }
    }
  }

  /** One value, by its kind. */
  method WriteVal(s: OStream, k: Kind, v: Val) returns (ok: bool)
    requires s.Valid()
    modifies s`bytesWritten, s`output
    ensures s.Valid()
    ensures ok <==> EncodeVal(k, v).Some? && s.HasRoom(old(s.bytesWritten), |EncodeVal(k, v).value|)
    ensures ok ==> s.bytesWritten == old(s.bytesWritten) + |EncodeVal(k, v).value|
                   && s.output == s.After(old(s.output), EncodeVal(k, v).value)
    decreases k, 3
  {
    ok := false;
    match k {
      case Bool => if v.Num? { ok := s.WriteVarint(if v.n != 0 then 1 else 0); }
      case Varint(_) => if v.Num? && IsInt64(v.n) { ok := s.WriteVarint(ToUnsigned(v.n)); }
      case UVarint(_) => if v.Num? && 0 <= v.n < WORD64 { ok := s.WriteVarint(v.n); }
      case SVarint(_) => if v.Num? && IsInt64(v.n) { ok := s.WriteVarint(ZigZag(v.n)); }
      case Fixed32 => ok := s.Write(EncodeFixed32(Word(v) % WORD32));
      case Fixed64 => ok := s.Write(EncodeFixed64(Word(v) % WORD64));
      case BytesOf(max) => if v.Data? && |v.b| <= max { ok := s.WriteString(v.b); }
      case StringOf(max) => if v.Data? && |v.b| <= max { ok := s.WriteString(CString(v.b)); }
      case FixedBytes(n) => if v.Data? && |v.b| == n { ok := s.WriteString(v.b); }
      case Message(d) => if v.Sub? && |v.slots| == |d.fields| { ok := WriteSubmessage(s, d, v.slots); }
    }
  }

  /** `pb_encode_submessage`: measure, write the length, then write the message
      into a substream of exactly that size. */
  method WriteSubmessage(s: OStream, d: Descriptor, m: seq<Slot>) returns (ok: bool)
    requires s.Valid() && |m| == |d.fields|
    modifies s`bytesWritten, s`output
    ensures s.Valid()
    ensures ok <==> EncodeVal(Message(d), Sub(m)).Some?
                    && s.HasRoom(old(s.bytesWritten), |EncodeVal(Message(d), Sub(m)).value|)
    ensures ok ==> s.bytesWritten == old(s.bytesWritten) + |EncodeVal(Message(d), Sub(m)).value|
                   && s.output == s.After(old(s.output), EncodeVal(Message(d), Sub(m)).value)
    decreases d, 5
  {
    var size;
    ok, size := MessageSize(d, m);
    if !ok || size >= WORD64 {
      return false;
    }
    ok := s.WriteVarint(size);
    if !ok {
      return;
    }
    if s.sizing {
      s.Count(size);
      return;
    }
    ok := WriteBody(s, d, m, size);
    if ok {
      Regroup(old(s.output), EncodeVarint(size), Encode(d, m).value);
    }
  }

  /** The sizing pass. */
  method MessageSize(d: Descriptor, m: seq<Slot>) returns (ok: bool, size: nat)
    requires |m| == |d.fields|
    ensures ok <==> Encode(d, m).Some?
    ensures ok ==> size == |Encode(d, m).value|
    decreases d, 4
  {
    var substream := new OStream.Sizing();
    ok := WriteMessage(substream, d, m);
    size := substream.bytesWritten;
  }

  /** The second pass, into a substream of exactly the size measured. */
  method WriteBody(s: OStream, d: Descriptor, m: seq<Slot>, size: nat) returns (ok: bool)
    requires s.Valid() && !s.sizing && |m| == |d.fields| && Encode(d, m).Some? && size == |Encode(d, m).value|
    modifies s`bytesWritten, s`output
    ensures s.Valid()
    ensures ok <==> s.HasRoom(old(s.bytesWritten), size)
    ensures ok ==> s.bytesWritten == old(s.bytesWritten) + size
                   && s.output == s.After(old(s.output), Encode(d, m).value)
    decreases d, 4
  {
    if s.bytesWritten + size > s.maxSize {
      return false;
    }
    var substream := new OStream(s.output, size);
    ok := WriteMessage(substream, d, m);
    s.bytesWritten := s.bytesWritten + substream.bytesWritten;
    s.output := substream.output;
    if substream.bytesWritten != size {
      assert false;
    }
  }

  /** `pb_encode`: all fields, in order. */
  method WriteMessage(s: OStream, d: Descriptor, m: seq<Slot>) returns (ok: bool)
    requires s.Valid() && |m| == |d.fields|
    modifies s`bytesWritten, s`output
    ensures s.Valid()
    ensures ok <==> Encode(d, m).Some? && s.HasRoom(old(s.bytesWritten), |Encode(d, m).value|)
    ensures ok ==> s.bytesWritten == old(s.bytesWritten) + |Encode(d, m).value|
                   && s.output == s.After(old(s.output), Encode(d, m).value)
    decreases d, 2
  {
    ok := true;
    for i := 0 to |d.fields|
      invariant s.Valid() && ok
      invariant EncodeFields(d, m, i).Some? && s.HasRoom(old(s.bytesWritten), |EncodeFields(d, m, i).value|)
      invariant s.bytesWritten == old(s.bytesWritten) + |EncodeFields(d, m, i).value|
      invariant s.output == s.After(old(s.output), EncodeFields(d, m, i).value)
    {
      FieldsGrow(d, m, i + 1, |d.fields|);
      NextField(d, m, i);
      ok := WriteField(s, d.fields[i], m[i]);
      if !ok {
        return;
      }
      Regroup(old(s.output), EncodeFields(d, m, i).value, EncodeField(d.fields[i], m[i]).value);
    }
  }

  lemma NextField(d: Descriptor, m: seq<Slot>, i: nat)
    requires i < |m| == |d.fields|
    ensures var before, last := EncodeFields(d, m, i), EncodeField(d.fields[i], m[i]);
      EncodeFields(d, m, i + 1) == if before.Some? && last.Some? then Some(before.value + last.value) else None
  {
  }

  /** If the whole message can be encoded, so can its first fields, in fewer bytes. */
  lemma {:induction false} FieldsGrow(d: Descriptor, m: seq<Slot>, i: nat, n: nat)
    requires i <= n <= |m| == |d.fields|
    ensures EncodeFields(d, m, n).Some? ==>
      EncodeFields(d, m, i).Some? && |EncodeFields(d, m, i).value| <= |EncodeFields(d, m, n).value|
    decreases n
  {
    if i < n {
      FieldsGrow(d, m, i, n - 1);
    }
  }

  method WriteTagged(s: OStream, f: Field, v: Val) returns (ok: bool)
    requires s.Valid()
    modifies s`bytesWritten, s`output
    ensures s.Valid()
    ensures ok <==> EncodeTagged(f, v).Some? && s.HasRoom(old(s.bytesWritten), |EncodeTagged(f, v).value|)
    ensures ok ==> s.bytesWritten == old(s.bytesWritten) + |EncodeTagged(f, v).value|
                   && s.output == s.After(old(s.output), EncodeTagged(f, v).value)
    decreases f, 1
  {
    ok := s.WriteTag(f.tag, WireType(f.kind));
    if ok {
      ok := WriteVal(s, f.kind, v);
      if ok {
        ghost var tag, e := TagBytes(f.tag, WireType(f.kind)), EncodeVal(f.kind, v).value;
        assert old(s.output) + tag + e == old(s.output) + (tag + e);
      }
    }
  }

  /** `encode_basic_field` */
  method WriteField(s: OStream, f: Field, slot: Slot) returns (ok: bool)
    requires s.Valid()
    modifies s`bytesWritten, s`output
    ensures s.Valid()
    ensures ok <==> EncodeField(f, slot).Some? && s.HasRoom(old(s.bytesWritten), |EncodeField(f, slot).value|)
    ensures ok ==> s.bytesWritten == old(s.bytesWritten) + |EncodeField(f, slot).value|
                   && s.output == s.After(old(s.output), EncodeField(f, slot).value)
    decreases f, 3
  {
    ok := true;
    assert s.output + [] == s.output;
    match f.rule {
      case Required => if slot.One? { ok := WriteTagged(s, f, slot.v); } else { ok := false; }
      case Optional =>
        if !slot.Maybe? {
          ok := false;
        } else if slot.has {
          ok := WriteTagged(s, f, slot.v);
        }
      case OneOf(_) =>
        if !slot.Maybe? {
          ok := false;
        } else if slot.has {
          ok := WriteTagged(s, f, slot.v);
        }
      case Singular =>
        if !slot.One? {
          ok := false;
        } else if !IsZero(f.kind, slot.v) {
          ok := WriteTagged(s, f, slot.v);
        }
      case Repeated(max) => if slot.Many? { ok := WriteArray(s, f, slot.vs, max); } else { ok := false; }
    }
  }

  /** The loop over the items of an array. */
  method WriteVals(s: OStream, tag: nat, tagged: bool, k: Kind, vs: seq<Val>) returns (ok: bool)
    requires s.Valid()
    modifies s`bytesWritten, s`output
    ensures s.Valid()
    ensures var e := EncodeVals(Prefix(tag, tagged, k), k, vs);
      && (ok <==> e.Some? && s.HasRoom(old(s.bytesWritten), |e.value|))
      && (ok ==> s.bytesWritten == old(s.bytesWritten) + |e.value| && s.output == s.After(old(s.output), e.value))
    decreases k, 5, |vs|
  {
    ok := true;
    assert s.output + [] == s.output;
    if vs != [] {
      ok := WriteItem(s, tag, tagged, k, vs[0]);
      if ok {
        ok := WriteVals(s, tag, tagged, k, vs[1..]);
        ghost var prefix := Prefix(tag, tagged, k);
        if ok {
          Regroup(old(s.output), prefix + EncodeVal(k, vs[0]).value, EncodeVals(prefix, k, vs[1..]).value);
        }
      }
    }
  }

  function Prefix(tag: nat, tagged: bool, k: Kind): Bytes {
    if tagged then TagBytes(tag, WireType(k)) else []
  }

  method WriteItem(s: OStream, tag: nat, tagged: bool, k: Kind, v: Val) returns (ok: bool)
    requires s.Valid()
    modifies s`bytesWritten, s`output
    ensures s.Valid()
    ensures var prefix, e := Prefix(tag, tagged, k), EncodeVal(k, v);
      && (ok <==> e.Some? && s.HasRoom(old(s.bytesWritten), |prefix + e.value|))
      && (ok ==> s.bytesWritten == old(s.bytesWritten) + |prefix + e.value|
                 && s.output == s.After(old(s.output), prefix + e.value))
    decreases k, 4
  {
    if tagged {
      ok := s.WriteTag(tag, WireType(k));
      if !ok {
        return;
      }
    }
    ok := WriteVal(s, k, v);
    if ok {
      ghost var prefix := Prefix(tag, tagged, k);
      assert old(s.output) + [] == old(s.output);
      Regroup(old(s.output), prefix, EncodeVal(k, v).value);
    }
  }

  /** `encode_array`: packed numbers are measured first, too. */
  method WriteArray(s: OStream, f: Field, vs: seq<Val>, max: nat) returns (ok: bool)
    requires s.Valid()
    modifies s`bytesWritten, s`output
    ensures s.Valid()
    ensures ok <==> EncodeArray(f, vs, max).Some? && s.HasRoom(old(s.bytesWritten), |EncodeArray(f, vs, max).value|)
    ensures ok ==> s.bytesWritten == old(s.bytesWritten) + |EncodeArray(f, vs, max).value|
                   && s.output == s.After(old(s.output), EncodeArray(f, vs, max).value)
    decreases f, 2
  {
    assert s.output + [] == s.output;
    if vs == [] {
      return true;
    }
    if |vs| > max {
      return false;
    }
    if !Packable(f.kind) {
      ok := WriteVals(s, f.tag, true, f.kind, vs);
      return;
    }
    ok := s.WriteTag(f.tag, WT_STRING);
    if ok {
      ok := WritePacked(s, f.kind, vs);
      if ok {
        ghost var body := EncodeVals([], f.kind, vs).value;
        Regroup(old(s.output), TagBytes(f.tag, WT_STRING), EncodeVarint(|body|) + body);
      }
    }
  }

  /** The size of the packed items: computed for fixed widths, else measured. */
  method PackedSize(k: Kind, vs: seq<Val>) returns (ok: bool, size: nat)
    ensures ok <==> EncodeVals([], k, vs).Some?
    ensures ok ==> size == |EncodeVals([], k, vs).value|
    decreases k, 6
  {
    FixedSizes(k, vs);
    if k.Fixed32? {
      return true, 4 * |vs|;
    }
    if k.Fixed64? {
      return true, 8 * |vs|;
    }
    var sizeStream := new OStream.Sizing();
    ok := WriteVals(sizeStream, 0, false, k, vs);
    size := sizeStream.bytesWritten;
  }

  method WritePacked(s: OStream, k: Kind, vs: seq<Val>) returns (ok: bool)
    requires s.Valid()
    modifies s`bytesWritten, s`output
    ensures s.Valid()
    ensures ok <==> EncodeVals([], k, vs).Some? && WithLength(EncodeVals([], k, vs).value).Some?
                    && s.HasRoom(old(s.bytesWritten), |WithLength(EncodeVals([], k, vs).value).value|)
    ensures ok ==> s.bytesWritten == old(s.bytesWritten) + |WithLength(EncodeVals([], k, vs).value).value|
                   && s.output == s.After(old(s.output), WithLength(EncodeVals([], k, vs).value).value)
    decreases k, 7
  {
    var size;
    ok, size := PackedSize(k, vs);
    if !ok || size >= WORD64 {
      return false;
    }
    ok := s.WriteVarint(size);
    if !ok {
      return;
    }
    if s.sizing {
      s.Count(size);
      return;
    }
    ok := WriteVals(s, 0, false, k, vs);
    if ok {
      Regroup(old(s.output), EncodeVarint(size), EncodeVals([], k, vs).value);
    }
  }

  /** Fixed-width items need no sizing pass. */
  lemma {:induction false} FixedSizes(k: Kind, vs: seq<Val>)
    ensures k.Fixed32? ==> EncodeVals([], k, vs).Some? && |EncodeVals([], k, vs).value| == 4 * |vs|
    ensures k.Fixed64? ==> EncodeVals([], k, vs).Some? && |EncodeVals([], k, vs).value| == 8 * |vs|
  {
    if vs != [] {
      FixedSizes(k, vs[1..]);
    }
  }

  /** `pb_get_encoded_size`: the sizing pass predicts exactly what is written. */
  method EncodedSize(d: Descriptor, m: seq<Slot>) returns (ok: bool, size: nat)
    requires |m| == |d.fields|
    ensures ok <==> Encode(d, m).Some?
    ensures ok ==> size == |Encode(d, m).value|
  {
    var stream := new OStream.Sizing();
    ok := WriteMessage(stream, d, m);
    size := stream.bytesWritten;
  }

  /** Encoding into a buffer, which succeeds exactly when the message fits it. */
  method EncodeToBuffer(d: Descriptor, m: seq<Slot>, capacity: nat) returns (ok: bool, buffer: Bytes)
    requires |m| == |d.fields|
    ensures ok <==> Encode(d, m).Some? && |Encode(d, m).value| <= capacity
    ensures ok ==> Some(buffer) == Encode(d, m)
    ensures ok && GoodTags(d) ==> IsMessage(d, m, buffer)
  {
    var stream := new OStream([], capacity);
    ok := WriteMessage(stream, d, m);
    buffer := stream.output;
    if ok {
      assert [] + Encode(d, m).value == Encode(d, m).value;
      if GoodTags(d) {
        MessageFormat(d, m);
      }
    }
  }
}
