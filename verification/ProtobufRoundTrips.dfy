/** Decoding an encoded nanopb message gives it back. */
module ProtobufRoundTrips {
  import opened InternalKeys
  import opened Coding
  import opened ProtobufWires
  import opened ProtobufMessages
  import opened ProtobufRecords

  // ---------------------------------------------------------------------
  // What comes back
  // ---------------------------------------------------------------------

  function ExpectedVal(k: Kind, v: Val): Val
    requires FitsVal(k, v)
    decreases k, 0
  {
    if k.Message? then Sub(Expected(k.descriptor, v.slots)) else v
  }

  function ExpectedVals(k: Kind, vs: seq<Val>): (r: seq<Val>)
    requires forall i :: 0 <= i < |vs| ==> FitsVal(k, vs[i])
    ensures |r| == |vs|
    decreases k, 1
  {
    seq(|vs|, i requires 0 <= i < |vs| => ExpectedVal(k, vs[i]))
  }

  /** Present fields as they were, the others at their defaults. */
  function ExpectedSlot(f: Field, s: Slot): Slot
    requires FitsSlot(f, s)
    decreases f, 0
  {
    if !IsPresent(f, s) then DefaultSlot(f)
    else
      match f.rule
      case Required => One(ExpectedVal(f.kind, s.v))
      case Singular => One(ExpectedVal(f.kind, s.v))
      case Optional => Maybe(true, ExpectedVal(f.kind, s.v))
      case OneOf(_) => Maybe(true, ExpectedVal(f.kind, s.v))
      case Repeated(_) => Many(ExpectedVals(f.kind, s.vs))
  }

  function Expected(d: Descriptor, m: seq<Slot>): (r: seq<Slot>)
    requires Fits(d, m)
    ensures |r| == |d.fields|
    decreases d, 1
  {
    seq(|d.fields|, i requires 0 <= i < |d.fields| => ExpectedSlot(d.fields[i], m[i]))
  }

  // ---------------------------------------------------------------------
  // Merging into nothing
  // ---------------------------------------------------------------------

  lemma MergedIsExpected(k: Kind, default: Val, v: Val)
    requires FitsVal(k, v)
    ensures Merged(k, DefaultVal(k, default), v) == ExpectedVal(k, v)
    decreases k, 0
  {
    if k.Message? {
      MergeIsExpected(k.descriptor, v.slots);
    }
  }

  lemma MergedSlotIsExpected(f: Field, m: Slot)
    requires FitsSlot(f, m) && IsPresent(f, m)
    ensures MergedSlot(f, DefaultSlot(f), m) == ExpectedSlot(f, m)
    decreases f, 0
  {
    if f.rule.Repeated? {
      forall i | 0 <= i < |m.vs|
        ensures Merged(f.kind, DefaultVal(f.kind, f.default), m.vs[i]) == ExpectedVal(f.kind, m.vs[i])
      {
        MergedIsExpected(f.kind, f.default, m.vs[i]);
      }
      assert MergedVals(f.kind, f.default, m.vs) == ExpectedVals(f.kind, m.vs);
    } else {
      MergedIsExpected(f.kind, f.default, m.v);
    }
  }

  /** A message merged into the defaults: present fields as they were. */
  lemma MergeIsExpected(d: Descriptor, m: seq<Slot>)
    requires Fits(d, m)
    ensures MergeInto(d, Defaults(d), m) == Expected(d, m)
    decreases d, 1
  {
    forall j | 0 <= j < |m| ensures MergeInto(d, Defaults(d), m)[j] == Expected(d, m)[j] {
      if IsPresent(d.fields[j], m[j]) {
        MergedSlotIsExpected(d.fields[j], m[j]);
      }
    }
  }

  // ---------------------------------------------------------------------
  // Values, fields, messages
  // ---------------------------------------------------------------------

  lemma ValRoundTrip(k: Kind, v: Val, default: Val, rest: Bytes)
    requires GoodKind(k) && FitsVal(k, v) && EncodeVal(k, v).Some? && |EncodeVal(k, v).value| < WORD32
    ensures DecodeVal(k, EncodeVal(k, v).value + rest, DefaultVal(k, default)) == Some(Decoded(ExpectedVal(k, v), rest))
  {
    DefaultsHaveRoom(k, default, v);
    ValueArrives(k, DefaultVal(k, default), v, rest);
    MergedIsExpected(k, default, v);
  }

  lemma MessageRoundTrip(d: Descriptor, m: seq<Slot>)
    requires Good(d) && Fits(d, m) && Encode(d, m).Some? && |Encode(d, m).value| < WORD32
    ensures DecodeMessage(d, Encode(d, m).value) == Some(Expected(d, m))
  {
    DefaultsHaveRoomFor(d, m);
    MessageArrives(d, m, Defaults(d));
    MergeIsExpected(d, m);
  }

  /** The first `n` fields as decoded, the others at their defaults. */
  function Mixed(d: Descriptor, m: seq<Slot>, n: nat): (r: seq<Slot>)
    requires Fits(d, m)
    ensures |r| == |d.fields|
    ensures forall j :: 0 <= j < |r| ==>
      r[j] == if j < n then ExpectedSlot(d.fields[j], m[j]) else DefaultSlot(d.fields[j])
  {
    seq(|d.fields|, j requires 0 <= j < |d.fields| =>
      if j < n then ExpectedSlot(d.fields[j], m[j]) else DefaultSlot(d.fields[j]))
  }

  lemma MixedNext(d: Descriptor, m: seq<Slot>, i: nat)
    requires Fits(d, m) && i < |m|
    ensures AfterItems(d, Mixed(d, m, i), FieldItems(d, i, m[i])) == Mixed(d, m, i + 1)
    ensures ItemsFit(d, Mixed(d, m, i), FieldItems(d, i, m[i]))
  {
    var slots, items := Mixed(d, m, i), FieldItems(d, i, m[i]);
    forall j | 0 <= j < |slots|
      ensures AfterItems(d, slots, items)[j] == Mixed(d, m, i + 1)[j] && SlotFits(d, slots[j], items, j)
    {
      FieldAt(d, slots[j], i, m[i], j);
      if IsPresent(d.fields[i], m[i]) {
        PresentFits(d, m, i, j);
      }
      FieldFits(d, slots[j], i, m[i], j);
    }
  }

  /** A present field on top of those before it. */
  lemma PresentFits(d: Descriptor, m: seq<Slot>, i: nat, j: nat)
    requires Fits(d, m) && i < |m| && j < |m| && IsPresent(d.fields[i], m[i])
    ensures i == j ==> SlotRoom(d.fields[i], DefaultSlot(d.fields[i]), m[i])
    ensures i == j ==> MergedSlot(d.fields[i], DefaultSlot(d.fields[i]), m[i]) == ExpectedSlot(d.fields[i], m[i])
    ensures Siblings(d, i, j) ==> Mixed(d, m, i + 1)[j] == DefaultSlot(d.fields[j])
  {
    if i == j {
      DefaultsHaveRoomFor(d, m);
      MergedSlotIsExpected(d.fields[i], m[i]);
    } else if Siblings(d, i, j) {
      OneOfUnion(d, m, i, j);
    }
  }

  /** Decoding field `i` on top of the fields before it. */
  lemma FieldRoundTrip(d: Descriptor, m: seq<Slot>, i: nat, rest: Bytes)
    requires Good(d) && Fits(d, m) && i < |m|
    requires EncodeField(d.fields[i], m[i]).Some? && |EncodeField(d.fields[i], m[i]).value| < WORD32
    ensures DecodeFields(d, EncodeField(d.fields[i], m[i]).value + rest, Progress(Mixed(d, m, i), SeenUpTo(d, i)))
         == DecodeFields(d, rest, Progress(Mixed(d, m, i + 1), SeenUpTo(d, i + 1)))
  {
    FieldIsItems(d, i, m[i]);
    MixedNext(d, m, i);
    FieldIsSeen(d, SeenUpTo(d, i), i, m[i]);
    ItemsArrive(d, FieldItems(d, i, m[i]), rest, Progress(Mixed(d, m, i), SeenUpTo(d, i)));
  }

  /** An array goes behind the items already there, packed or one record per item. */
  lemma ArrayRoundTrip(d: Descriptor, i: nat, vs: seq<Val>, rest: Bytes, st: Progress)
    requires Good(d) && i < |d.fields| == |st.slots| && d.fields[i].rule.Repeated?
    requires FitsSlot(d.fields[i], Many(vs)) && vs != []
    requires EncodeField(d.fields[i], Many(vs)).Some? && |EncodeField(d.fields[i], Many(vs)).value| < WORD32
    requires |ItemsIn(st.slots[i])| + |vs| <= d.fields[i].rule.max
    ensures DecodeFields(d, EncodeField(d.fields[i], Many(vs)).value + rest, st)
         == DecodeFields(d, rest, Progress(
              st.slots[i := Many(ItemsIn(st.slots[i]) + ExpectedVals(d.fields[i].kind, vs))], st.seen))
  {
    FieldIsItems(d, i, Many(vs));
    FieldIsSeen(d, st.seen, i, Many(vs));
    ArrayItemsFit(d, i, vs, st.slots);
    ItemsArrive(d, FieldItems(d, i, Many(vs)), rest, st);
  }

  lemma ArrayItemsFit(d: Descriptor, i: nat, vs: seq<Val>, slots: seq<Slot>)
    requires i < |d.fields| == |slots| && d.fields[i].rule.Repeated? && FitsSlot(d.fields[i], Many(vs)) && vs != []
    requires |ItemsIn(slots[i])| + |vs| <= d.fields[i].rule.max
    ensures ItemsFit(d, slots, FieldItems(d, i, Many(vs)))
    ensures AfterItems(d, slots, FieldItems(d, i, Many(vs)))
         == slots[i := Many(ItemsIn(slots[i]) + ExpectedVals(d.fields[i].kind, vs))]
  {
    var items := FieldItems(d, i, Many(vs));
    ExpectedItems(d.fields[i], vs);
    forall j | 0 <= j < |slots|
      ensures SlotFits(d, slots[j], items, j)
      ensures AfterItems(d, slots, items)[j]
           == slots[i := Many(ItemsIn(slots[i]) + ExpectedVals(d.fields[i].kind, vs))][j]
    {
      FieldAt(d, slots[j], i, Many(vs), j);
      FieldFits(d, slots[j], i, Many(vs), j);
    }
  }

  lemma ExpectedItems(f: Field, vs: seq<Val>)
    requires f.rule.Repeated? && FitsSlot(f, Many(vs))
    ensures MergedVals(f.kind, f.default, vs) == ExpectedVals(f.kind, vs)
  {
    forall i | 0 <= i < |vs|
      ensures Merged(f.kind, DefaultVal(f.kind, f.default), vs[i]) == ExpectedVal(f.kind, vs[i])
    {
      MergedIsExpected(f.kind, f.default, vs[i]);
    }
  }

  // ---------------------------------------------------------------------
  // The very message comes back
  // ---------------------------------------------------------------------

  predicate ZeroDefault(k: Kind, default: Val) {
    match k
    case Message(_) => true
    case BytesOf(_) => default == Data([])
    case StringOf(_) => default == Data([])
    case FixedBytes(_) => default == Data([])
    case _ => default == Num(0)
  }

  /** Fields left out when zero have zero for their default. */
  predicate ZeroDefaults(d: Descriptor)
    decreases d, 1
  {
    forall i :: 0 <= i < |d.fields| ==>
      && (d.fields[i].rule.Singular? ==> ZeroDefault(d.fields[i].kind, d.fields[i].default))
      && ZeroDefaultsIn(d.fields[i].kind)
  }

  predicate ZeroDefaultsIn(k: Kind)
    decreases k, 0
  {
    k.Message? ==> ZeroDefaults(k.descriptor)
  }

  /** Fields that are absent hold their defaults. */
  predicate Plain(d: Descriptor, m: seq<Slot>)
    requires Fits(d, m)
    decreases d, 1
  {
    forall i :: 0 <= i < |m| ==> PlainSlot(d.fields[i], m[i])
  }

  predicate PlainSlot(f: Field, m: Slot)
    requires FitsSlot(f, m)
    decreases f, 0
  {
    match f.rule
    case Required => PlainVal(f.kind, m.v)
    case Singular => PlainVal(f.kind, m.v)
    case Optional => if m.has then PlainVal(f.kind, m.v) else m == DefaultSlot(f)
    case OneOf(_) => if m.has then PlainVal(f.kind, m.v) else m == DefaultSlot(f)
    case Repeated(_) => forall i :: 0 <= i < |m.vs| ==> PlainVal(f.kind, m.vs[i])
  }

  predicate PlainVal(k: Kind, v: Val)
    requires FitsVal(k, v)
    decreases k, 0
  {
    k.Message? ==> Plain(k.descriptor, v.slots)
  }

  /** A value left out as zero is the default. */
  lemma ZeroIsDefault(k: Kind, default: Val, v: Val)
    requires FitsVal(k, v) && PlainVal(k, v) && IsZero(k, v) && ZeroDefault(k, default) && ZeroDefaultsIn(k)
    ensures v == DefaultVal(k, default)
    decreases k, 0
  {
    if k.Message? {
      forall i | 0 <= i < |v.slots| ensures v.slots[i] == Defaults(k.descriptor)[i] {
        ZeroSlotIsDefault(k.descriptor.fields[i], v.slots[i]);
      }
    }
  }

  lemma ZeroSlotIsDefault(f: Field, m: Slot)
    requires FitsSlot(f, m) && PlainSlot(f, m) && IsZeroSlot(f, m) && ZeroDefaultsIn(f.kind)
    requires f.rule.Singular? ==> ZeroDefault(f.kind, f.default)
    ensures m == DefaultSlot(f)
    decreases f, 0
  {
    if f.rule.Singular? {
      ZeroIsDefault(f.kind, f.default, m.v);
    }
  }

  /** The default of this kind is zero to the encoder: no required field is inside,
      and no array of a fixed number of bytes. */
  predicate CanBeEmpty(k: Kind)
    decreases k, 1
  {
    match k
    case FixedBytes(n) => n == 0
    case Message(d) => forall i :: 0 <= i < |d.fields| ==> FieldCanBeEmpty(d.fields[i])
    case _ => true
  }

  predicate FieldCanBeEmpty(f: Field)
    decreases f, 0
  {
    !f.rule.Required? && (f.rule.Singular? ==> CanBeEmpty(f.kind))
  }

  lemma ZeroCanBeEmpty(k: Kind, v: Val)
    requires FitsVal(k, v) && IsZero(k, v)
    ensures CanBeEmpty(k)
    decreases k, 0
  {
    if k.Message? {
      forall i | 0 <= i < |k.descriptor.fields| ensures FieldCanBeEmpty(k.descriptor.fields[i]) {
        var f, s := k.descriptor.fields[i], v.slots[i];
        assert IsZeroSlot(f, s) && FitsSlot(f, s);
        if f.rule.Singular? {
          ZeroCanBeEmpty(f.kind, s.v);
        }
      }
    }
  }

  lemma DefaultIsZero(k: Kind, default: Val)
    requires ZeroDefault(k, default) && ZeroDefaultsIn(k) && CanBeEmpty(k)
    ensures IsZero(k, DefaultVal(k, default))
    decreases k, 0
  {
    if k.Message? {
      var d := k.descriptor;
      forall i | 0 <= i < |d.fields| ensures IsZeroSlot(d.fields[i], Defaults(d)[i]) {
        assert FieldCanBeEmpty(d.fields[i]);
        if d.fields[i].rule.Singular? {
          DefaultIsZero(d.fields[i].kind, d.fields[i].default);
        }
      }
    }
  }

  /** A field is left out as zero exactly when it holds its default and can be empty. */
  lemma ZeroIffDefault(k: Kind, default: Val, v: Val)
    requires FitsVal(k, v) && PlainVal(k, v) && ZeroDefault(k, default) && ZeroDefaultsIn(k)
    ensures IsZero(k, v) <==> v == DefaultVal(k, default) && CanBeEmpty(k)
  {
    if IsZero(k, v) {
      ZeroIsDefault(k, default, v);
      ZeroCanBeEmpty(k, v);
    }
    if CanBeEmpty(k) {
      DefaultIsZero(k, default);
    }
  }

  lemma PlainValIsExpected(k: Kind, v: Val)
    requires FitsVal(k, v) && PlainVal(k, v) && ZeroDefaultsIn(k)
    ensures ExpectedVal(k, v) == v
    decreases k, 0
  {
    if k.Message? {
      PlainIsExpected(k.descriptor, v.slots);
    }
  }

  lemma PlainSlotIsExpected(f: Field, m: Slot)
    requires FitsSlot(f, m) && PlainSlot(f, m) && ZeroDefaultsIn(f.kind)
    requires f.rule.Singular? ==> ZeroDefault(f.kind, f.default)
    ensures ExpectedSlot(f, m) == m
    decreases f, 0
  {
    if f.rule.Repeated? {
      forall i | 0 <= i < |m.vs| ensures ExpectedVal(f.kind, m.vs[i]) == m.vs[i] {
        PlainValIsExpected(f.kind, m.vs[i]);
      }
      assert ExpectedVals(f.kind, m.vs) == m.vs;
    } else if IsPresent(f, m) {
      PlainValIsExpected(f.kind, m.v);
    } else if f.rule.Singular? {
      ZeroIsDefault(f.kind, f.default, m.v);
    }
  }

  /** So nothing is lost: what a plain message decodes to is the message itself. */
  lemma PlainIsExpected(d: Descriptor, m: seq<Slot>)
    requires Fits(d, m) && Plain(d, m) && ZeroDefaults(d)
    ensures Expected(d, m) == m
    decreases d, 1
  {
    forall i | 0 <= i < |m| ensures Expected(d, m)[i] == m[i] {
      PlainSlotIsExpected(d.fields[i], m[i]);
    }
  }

  // ---------------------------------------------------------------------
  // Required fields
  // ---------------------------------------------------------------------

  /** The fields that decoding `b` finds records for. */
  function FieldsIn(d: Descriptor, b: Bytes, st: Progress): set<nat>
    requires |st.slots| == |d.fields|
    decreases |b|
  {
    if b == [] then {}
    else
      match DecodeVarint32(b)
      case None => {}
      case Some(Decoded(temp, rest)) =>
        if temp == 0 then {}
        else
          match Find(d, temp / 8)
          case None =>
            var skipped := SkipUnknown(d, temp / 8, temp % 8, rest);
            if skipped.None? then {} else FieldsIn(d, skipped.value, st)
          case Some(i) =>
            var s := DecodeSlot(d.fields[i], temp % 8, rest, st.slots[i]);
            if s.None? then {}
            else {i} + FieldsIn(d, s.value.rest,
              Progress(Store(d, st.slots, i, s.value.value), MarkSeen(d, st.seen, i)))
  }

  lemma {:induction false} SeenComesFromFields(d: Descriptor, b: Bytes, st: Progress, k: nat)
    requires |st.slots| == |d.fields| && DecodeFields(d, b, st).Some? && k in DecodeFields(d, b, st).value.seen
    ensures k in st.seen || exists i ::
      i in FieldsIn(d, b, st) && i < |d.fields| && d.fields[i].rule.Required? && RequiredBefore(d, i) == k
    decreases |b|
  {
    if b != [] {
      var temp := DecodeVarint32(b).value;
      if temp.value != 0 {
        var found := Find(d, temp.value / 8);
        if found.None? {
          SeenComesFromFields(d, SkipUnknown(d, temp.value / 8, temp.value % 8, temp.rest).value, st, k);
        } else {
          var i := found.value;
          var s := DecodeSlot(d.fields[i], temp.value % 8, temp.rest, st.slots[i]).value;
          var st' := Progress(Store(d, st.slots, i, s.value), MarkSeen(d, st.seen, i));
          SeenComesFromFields(d, s.rest, st', k);
          assert k in st'.seen && k !in st.seen ==> i in FieldsIn(d, b, st) && RequiredBefore(d, i) == k;
        }
      }
    }
  }

  /** Decoding succeeds only if a record of each of the first 64 required fields came in. */
  lemma RequiredFieldsArePresent(d: Descriptor, b: Bytes, i: nat)
    requires DecodeMessage(d, b).Some? && i < |d.fields| && d.fields[i].rule.Required?
    requires RequiredBefore(d, i) < MAX_REQUIRED_FIELDS
    ensures i in FieldsIn(d, b, Progress(Defaults(d), {}))
  {
    var st := Progress(Defaults(d), {});
    RequiredIndexGrows(d, i, |d.fields|);
    SeenComesFromFields(d, b, st, RequiredBefore(d, i));
    var j :| j in FieldsIn(d, b, st) && j < |d.fields| && d.fields[j].rule.Required? &&
      RequiredBefore(d, j) == RequiredBefore(d, i);
    if i < j {
      RequiredIndexGrows(d, i, j);
    } else if j < i {
      RequiredIndexGrows(d, j, i);
    }
  }
}
