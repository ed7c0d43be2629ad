/** Decoding nanopb records, in any order and number. */
module ProtobufRecords {
  import opened InternalKeys
  import opened Coding
  import opened Inductions
  import opened ProtobufWires
  import opened ProtobufMessages

  const MAX_TAG: nat := 0x1fff_ffff

  // ---------------------------------------------------------------------
  // Descriptors and messages the theorem is about
  // ---------------------------------------------------------------------

  predicate GoodSize(size: nat) {
    size == 1 || size == 2 || size == 4 || size == 8
  }

  predicate GoodKind(k: Kind)
    decreases k, 0
  {
    match k
    case Varint(size) => GoodSize(size)
    case UVarint(size) => GoodSize(size)
    case SVarint(size) => GoodSize(size)
    case Message(d) => Good(d)
    case _ => true
  }

  /** Tags are distinct and fit the wire format. */
  predicate Good(d: Descriptor)
    decreases d, 1
  {
    && (forall i :: 0 <= i < |d.fields| ==> 1 <= d.fields[i].tag <= MAX_TAG && GoodKind(d.fields[i].kind))
    && DistinctTags(d)
  }

  /** The value is one its field can hold. */
  predicate FitsVal(k: Kind, v: Val)
    decreases k, 0
  {
    match k
    case Bool => v == Num(0) || v == Num(1)
    case Varint(size) => v.Num? && InSigned(v.n, size)
    case UVarint(size) => v.Num? && InUnsigned(v.n, size)
    case SVarint(size) => v.Num? && InSigned(v.n, size)
    case Fixed32 => v.Num? && 0 <= v.n < WORD32
    case Fixed64 => v.Num? && 0 <= v.n < WORD64
    case BytesOf(max) => v.Data? && |v.b| <= max
    case StringOf(max) => v.Data? && |v.b| <= max && CString(v.b) == v.b
    case FixedBytes(n) => v.Data? && |v.b| == n
    case Message(d) => v.Sub? && Fits(d, v.slots)
  }

  predicate FitsSlot(f: Field, s: Slot)
    decreases f, 0
  {
    match f.rule
    case Required => s.One? && FitsVal(f.kind, s.v)
    case Singular => s.One? && FitsVal(f.kind, s.v)
    case Optional => s.Maybe? && (s.has ==> FitsVal(f.kind, s.v))
    case OneOf(_) => s.Maybe? && (s.has ==> FitsVal(f.kind, s.v))
    case Repeated(max) => s.Many? && |s.vs| <= max && forall i :: 0 <= i < |s.vs| ==> FitsVal(f.kind, s.vs[i])
  }

  predicate Fits(d: Descriptor, m: seq<Slot>)
    decreases d, 1
  {
    && |m| == |d.fields|
    && (forall i :: 0 <= i < |d.fields| ==> FitsSlot(d.fields[i], m[i]))
    && (forall i, j :: 0 <= i < j < |d.fields| && d.fields[i].rule.OneOf? && d.fields[i].rule == d.fields[j].rule ==>
          !(m[i].has && m[j].has))
  }

  /** Is the field written? */
  predicate IsPresent(f: Field, s: Slot)
    requires FitsSlot(f, s)
  {
    match f.rule
    case Required => true
    case Singular => !IsZero(f.kind, s.v)
    case Optional => s.has
    case OneOf(_) => s.has
    case Repeated(_) => s.vs != []
  }

  lemma NotPresentIsEmpty(f: Field, s: Slot)
    requires FitsSlot(f, s) && !IsPresent(f, s)
    ensures EncodeField(f, s) == Some([])
  {
  }

  // ---------------------------------------------------------------------
  // Values
  // ---------------------------------------------------------------------

  lemma SignedRoundTrip(n: int, size: nat)
    requires GoodSize(size) && InSigned(n, size)
    ensures IsInt64(n) && ToSigned(ToUnsigned(n)) == n
    ensures size != 8 ==> ToSigned32(ToUnsigned(n)) == n
  {
    if size != 8 && n < 0 {
      assert (n + WORD64) % WORD32 == n + WORD32;
    }
  }

  lemma NumberRoundTrip(k: Kind, v: Val, rest: Bytes)
    requires Packable(k) && GoodKind(k) && FitsVal(k, v)
    ensures EncodeVal(k, v).Some? && DecodeNumber(k, EncodeVal(k, v).value + rest) == Some(Decoded(v, rest))
  {
    match k
    case Bool => Varint32RoundTrips(v.n, rest);
    case Varint(size) =>
      SignedRoundTrip(v.n, size);
      Varint64RoundTrip(ToUnsigned(v.n), rest);
    case UVarint(size) => Varint64RoundTrip(v.n, rest);
    case SVarint(size) =>
      SignedRoundTrip(v.n, size);
      ZigZagRoundTrip(v.n);
      Varint64RoundTrip(ZigZag(v.n), rest);
    case Fixed32 =>
      SmallModulo(v.n, WORD32);
      Fixed32RoundTrip(v.n, rest);
    case Fixed64 =>
      SmallModulo(v.n, WORD64);
      Fixed64RoundTrip(v.n, rest);
  }

  lemma SubstreamRoundTrip(b: Bytes, rest: Bytes)
    requires |b| < WORD32
    ensures WithLength(b).Some? && Substream(WithLength(b).value + rest) == Some(Decoded(b, rest))
  {
    assert (EncodeVarint(|b|) + b) + rest == EncodeVarint(|b|) + (b + rest);
    Varint32RoundTrips(|b|, b + rest);
    assert (b + rest)[..|b|] == b && (b + rest)[|b|..] == rest;
  }

  lemma DataRoundTrip(k: Kind, v: Val, rest: Bytes)
    requires (k.BytesOf? || k.StringOf? || k.FixedBytes?) && FitsVal(k, v) && |v.b| < WORD32
    ensures EncodeVal(k, v).Some? && DecodeData(k, EncodeVal(k, v).value + rest) == Some(Decoded(v, rest))
  {
    SubstreamRoundTrip(v.b, rest);
    if k.FixedBytes? && v.b == [] {
      assert seq(k.length, _ => 0) == v.b;
    }
  }

  lemma {:induction false} PackedRoundTrip(k: Kind, vs: seq<Val>, done: seq<Val>, max: nat)
    requires Packable(k) && GoodKind(k) && |done| + |vs| <= max
    requires forall i :: 0 <= i < |vs| ==> FitsVal(k, vs[i])
    ensures EncodeVals([], k, vs).Some? && DecodePacked(k, EncodeVals([], k, vs).value, done, max) == Some(done + vs)
    decreases |vs|
  {
    if vs == [] {
      assert done + vs == done;
    } else {
      PackedRoundTrip(k, vs[1..], done + [vs[0]], max);
      var more := EncodeVals([], k, vs[1..]).value;
      NumberRoundTrip(k, vs[0], more);
      PackedStep(k, EncodeVal(k, vs[0]).value, more, vs, done, max);
    }
  }

  lemma PackedStep(k: Kind, first: Bytes, more: Bytes, vs: seq<Val>, done: seq<Val>, max: nat)
    requires Packable(k) && vs != [] && |done| < max
    requires DecodeNumber(k, first + more) == Some(Decoded(vs[0], more))
    ensures [] + first + more == first + more
    ensures DecodePacked(k, first + more, done, max) == DecodePacked(k, more, done + [vs[0]], max)
    ensures (done + [vs[0]]) + vs[1..] == done + vs
  {
  }

  // ---------------------------------------------------------------------
  // One record of the wire
  // ---------------------------------------------------------------------

  lemma TagRoundTrip(tag: nat, wireType: nat, rest: Bytes)
    requires 1 <= tag <= MAX_TAG && wireType < 8
    ensures DecodeVarint32(TagBytes(tag, wireType) + rest) == Some(Decoded(tag * 8 + wireType, rest))
    ensures (tag * 8 + wireType) / 8 == tag && (tag * 8 + wireType) % 8 == wireType
  {
    SmallModulo(tag * 8 + wireType, WORD64);
    Varint32RoundTrips(tag * 8 + wireType, rest);
  }

  lemma FindsField(d: Descriptor, i: nat)
    requires Good(d) && i < |d.fields|
    ensures Find(d, d.fields[i].tag) == Some(i)
  {
  }

  /** One record in the input stores one slot. */
  lemma RecordStep(d: Descriptor, i: nat, wireType: nat, payload: Bytes, rest: Bytes, st: Progress, slot: Slot)
    requires Good(d) && i < |d.fields| == |st.slots| && wireType < 8
    requires DecodeSlot(d.fields[i], wireType, payload + rest, st.slots[i]) == Some(Decoded(slot, rest))
    ensures DecodeFields(d, (TagBytes(d.fields[i].tag, wireType) + payload) + rest, st)
         == DecodeFields(d, rest, Progress(Store(d, st.slots, i, slot), MarkSeen(d, st.seen, i)))
  {
    var tag := TagBytes(d.fields[i].tag, wireType);
    Regroup(tag, payload, rest);
    TagRoundTrip(d.fields[i].tag, wireType, payload + rest);
    FindsField(d, i);
    UnfoldRecord(d, tag + (payload + rest), payload + rest, d.fields[i].tag * 8 + wireType, i, st, slot, rest);
  }

  lemma UnfoldRecord(d: Descriptor, b: Bytes, afterTag: Bytes, temp: Word32, i: nat, st: Progress, slot: Slot,
                     rest: Bytes)
    requires |d.fields| == |st.slots| && i < |d.fields|
    requires b != [] && DecodeVarint32(b) == Some(Decoded(temp, afterTag)) && temp != 0 && Find(d, temp / 8) == Some(i)
    requires DecodeSlot(d.fields[i], temp % 8, afterTag, st.slots[i]) == Some(Decoded(slot, rest))
    ensures DecodeFields(d, b, st)
      == DecodeFields(d, rest, Progress(Store(d, st.slots, i, slot), MarkSeen(d, st.seen, i)))
  {
  }

  // ---------------------------------------------------------------------
  // What a submessage received more than once adds up to
  // ---------------------------------------------------------------------

  function ItemsIn(s: Slot): seq<Val> {
    if s.Many? then s.vs else []
  }

  predicate Siblings(d: Descriptor, i: nat, j: nat)
    requires i < |d.fields| && j < |d.fields|
  {
    i != j && d.fields[i].rule.OneOf? && d.fields[i].rule == d.fields[j].rule
  }

  /** A value received where `current` was: submessages are merged, others replaced. */
  function Merged(k: Kind, current: Val, v: Val): Val
    requires FitsVal(k, v)
    decreases k, 0
  {
    if k.Message? then Sub(MergeInto(k.descriptor, SlotsOf(k.descriptor, current), v.slots)) else v
  }

  function MergedVals(k: Kind, default: Val, vs: seq<Val>): (r: seq<Val>)
    requires forall i :: 0 <= i < |vs| ==> FitsVal(k, vs[i])
    ensures |r| == |vs|
    decreases k, 1
  {
    seq(|vs|, i requires 0 <= i < |vs| => Merged(k, DefaultVal(k, default), vs[i]))
  }

  /** A present field of a message, on top of slot `s`. */
  function MergedSlot(f: Field, s: Slot, m: Slot): Slot
    requires FitsSlot(f, m) && IsPresent(f, m)
    decreases f, 0
  {
    match f.rule
    case Required => One(Merged(f.kind, Current(f, s), m.v))
    case Singular => One(Merged(f.kind, Current(f, s), m.v))
    case Optional => Maybe(true, Merged(f.kind, Current(f, s), m.v))
    case OneOf(_) => Maybe(true, Merged(f.kind, DefaultVal(f.kind, f.default), m.v))
    case Repeated(_) => Many(ItemsIn(s) + MergedVals(f.kind, f.default, m.vs))
  }

  /** Some other member of `j`'s union is among the first `n` fields present. */
  predicate Displaced(d: Descriptor, m: seq<Slot>, n: nat, j: nat)
    requires Fits(d, m) && n <= |m| && j < |m|
  {
    exists i :: 0 <= i < n && Siblings(d, i, j) && IsPresent(d.fields[i], m[i])
  }

  /** Slot `j`, which held `s`, after the first `n` fields of a message. */
  function MergedAt(d: Descriptor, s: Slot, m: seq<Slot>, n: nat, j: nat): Slot
    requires Fits(d, m) && n <= |m| && j < |m|
    decreases d, 0
  {
    if j < n && IsPresent(d.fields[j], m[j]) then MergedSlot(d.fields[j], s, m[j])
    else if Displaced(d, m, n, j) then DefaultSlot(d.fields[j])
    else s
  }

  /** A whole message received on top of `start`. */
  function MergeInto(d: Descriptor, start: seq<Slot>, m: seq<Slot>): (r: seq<Slot>)
    requires Fits(d, m) && |start| == |d.fields|
    ensures |r| == |d.fields|
    decreases d, 1
  {
    seq(|start|, j requires 0 <= j < |start| => MergedAt(d, start[j], m, |m|, j))
  }

  // ---------------------------------------------------------------------
  // Room in arrays
  // ---------------------------------------------------------------------

  predicate HasRoom(k: Kind, current: Val, v: Val)
    requires FitsVal(k, v)
    decreases k, 0
  {
    k.Message? ==> RoomFor(k.descriptor, SlotsOf(k.descriptor, current), v.slots)
  }

  /** Arrays, those in submessages that are merged included, do not overflow. */
  predicate RoomFor(d: Descriptor, start: seq<Slot>, m: seq<Slot>)
    requires Fits(d, m) && |start| == |d.fields|
    decreases d, 1
  {
    forall j :: 0 <= j < |m| && IsPresent(d.fields[j], m[j]) ==> SlotRoom(d.fields[j], start[j], m[j])
  }

  predicate SlotRoom(f: Field, s: Slot, m: Slot)
    requires FitsSlot(f, m) && IsPresent(f, m)
    decreases f, 0
  {
    match f.rule
    case Repeated(max) => |ItemsIn(s)| + |m.vs| <= max
    case OneOf(_) => true
    case _ => HasRoom(f.kind, Current(f, s), m.v)
  }

  lemma DefaultsHaveRoom(k: Kind, default: Val, v: Val)
    requires FitsVal(k, v)
    ensures HasRoom(k, DefaultVal(k, default), v)
    decreases k
  {
    if k.Message? {
      var d := k.descriptor;
      forall j | 0 <= j < |d.fields| && IsPresent(d.fields[j], v.slots[j])
        ensures SlotRoom(d.fields[j], Defaults(d)[j], v.slots[j])
      {
        var f := d.fields[j];
        assert FitsSlot(f, v.slots[j]);
        if !f.rule.Repeated? && !f.rule.OneOf? {
          DefaultsHaveRoom(f.kind, f.default, v.slots[j].v);
        }
      }
    }
  }

  lemma DefaultsHaveRoomFor(d: Descriptor, m: seq<Slot>)
    requires Fits(d, m)
    ensures RoomFor(d, Defaults(d), m)
  {
    DefaultsHaveRoom(Message(d), Sub([]), Sub(m));
  }

  // ---------------------------------------------------------------------
  // Records
  // ---------------------------------------------------------------------

  /** A record of the wire: of no field, one value of field `i`, or a packed array. */
  datatype Item =
    | Unknown(tag: nat, kind: Kind, v: Val)
    | Value(i: nat, v: Val)
    | Packed(i: nat, vs: seq<Val>)

  predicate ItemOk(d: Descriptor, item: Item) {
    match item
    case Unknown(tag, _, _) => 1 <= tag <= MAX_TAG && Find(d, tag) == None
    case Value(i, v) => i < |d.fields| && FitsVal(d.fields[i].kind, v)
    case Packed(i, vs) =>
      && i < |d.fields| && d.fields[i].rule.Repeated? && Packable(d.fields[i].kind)
      && forall j :: 0 <= j < |vs| ==> FitsVal(d.fields[i].kind, vs[j])
  }

  function ItemBytes(d: Descriptor, item: Item): (r: Option<Bytes>)
    ensures r.Some? ==> ItemOk(d, item)
  {
    if !ItemOk(d, item) then None
    else
    match item
    case Unknown(tag, kind, v) => EncodeTagged(Field(tag, Required, kind, v), v)
    case Value(i, v) => EncodeTagged(d.fields[i], v)
    case Packed(i, vs) =>
      match EncodeVals([], d.fields[i].kind, vs)
      case None => None
      case Some(body) =>
        if |body| >= WORD64 then None else Some(TagBytes(d.fields[i].tag, WT_STRING) + (EncodeVarint(|body|) + body))
  }

  function ItemsBytes(d: Descriptor, items: seq<Item>): Option<Bytes>
  {
    if items == [] then Some([])
    else
      var n := |items| - 1;
      var before, last := ItemsBytes(d, items[..n]), ItemBytes(d, items[n]);
      if before.None? || last.None? then None else Some(before.value + last.value)
  }

  /** Does the record change slot `j`? */
  predicate Touches(d: Descriptor, item: Item, j: nat)
    requires j < |d.fields|
  {
    && ItemOk(d, item)
    && match item
       case Unknown(_, _, _) => false
       case Value(i, _) => i == j || Siblings(d, i, j)
       case Packed(i, _) => i == j
  }

  /** One value received for a field that holds `s`. */
  function Received(f: Field, s: Slot, v: Val): Slot
    requires FitsVal(f.kind, v)
  {
    match f.rule
    case Required => One(Merged(f.kind, Current(f, s), v))
    case Singular => One(Merged(f.kind, Current(f, s), v))
    case Optional => Maybe(true, Merged(f.kind, Current(f, s), v))
    case OneOf(_) => Maybe(true, Merged(f.kind, DefaultVal(f.kind, f.default), v))
    case Repeated(_) => Many(ItemsIn(s) + [Merged(f.kind, DefaultVal(f.kind, f.default), v)])
  }

  /** Slot `j`, which held `s`, after a record. */
  function SlotAfter(d: Descriptor, s: Slot, item: Item, j: nat): Slot
    requires j < |d.fields|
  {
    if !Touches(d, item, j) then s
    else
      match item
      case Unknown(_, _, _) => s
      case Value(i, v) => if i == j then Received(d.fields[j], s, v) else DefaultSlot(d.fields[j])
      case Packed(_, vs) => Many(ItemsIn(s) + vs)
  }

  function SlotAfterAll(d: Descriptor, s: Slot, items: seq<Item>, j: nat): Slot
    requires j < |d.fields|
  {
    if items == [] then s
    else SlotAfter(d, SlotAfterAll(d, s, items[..|items| - 1], j), items[|items| - 1], j)
  }

  /** The message after these records, in this order, on top of `slots`. */
  function AfterItems(d: Descriptor, slots: seq<Slot>, items: seq<Item>): (r: seq<Slot>)
    requires |slots| == |d.fields|
    ensures |r| == |d.fields|
  {
    seq(|slots|, j requires 0 <= j < |slots| => SlotAfterAll(d, slots[j], items, j))
  }

  /** The record finds room in slot `j`, if it is one of field `j`. */
  predicate ItemFitsSlot(d: Descriptor, s: Slot, item: Item, j: nat)
    requires j < |d.fields|
  {
    ItemOk(d, item) ==>
      match item
      case Unknown(_, _, _) => true
      case Value(i, v) => i == j ==> ValueFitsSlot(d.fields[j], s, v)
      case Packed(i, vs) => i == j ==> |ItemsIn(s)| + |vs| <= d.fields[j].rule.max
  }

  predicate ValueFitsSlot(f: Field, s: Slot, v: Val)
    requires FitsVal(f.kind, v)
  {
    match f.rule
    case Repeated(max) => |ItemsIn(s)| < max
    case OneOf(_) => true
    case _ => HasRoom(f.kind, Current(f, s), v)
  }

  /** Each record in turn finds room in slot `j`. */
  predicate SlotFits(d: Descriptor, s: Slot, items: seq<Item>, j: nat)
    requires j < |d.fields|
  {
    items == [] ||
    var n := |items| - 1;
    SlotFits(d, s, items[..n], j) && ItemFitsSlot(d, SlotAfterAll(d, s, items[..n], j), items[n], j)
  }

  lemma {:induction false} SlotFitsAt(d: Descriptor, s: Slot, items: seq<Item>, j: nat, k: nat)
    requires j < |d.fields| && SlotFits(d, s, items, j) && k < |items|
    ensures ItemFitsSlot(d, SlotAfterAll(d, s, items[..k], j), items[k], j)
  {
    var n := |items| - 1;
    if k < n {
      SlotFitsAt(d, s, items[..n], j, k);
      assert items[..n][..k] == items[..k];
    }
  }

  ghost predicate ItemsFit(d: Descriptor, slots: seq<Slot>, items: seq<Item>)
    requires |slots| == |d.fields|
  {
    forall j :: 0 <= j < |slots| ==> SlotFits(d, slots[j], items, j)
  }

  function SeenAfter(d: Descriptor, seen: set<nat>, items: seq<Item>): set<nat>
  {
    if items == [] then seen
    else
      var n := |items| - 1;
      SeenAfterOne(d, SeenAfter(d, seen, items[..n]), items[n])
  }

  function SeenAfterOne(d: Descriptor, seen: set<nat>, item: Item): set<nat> {
    if item.Unknown? || !ItemOk(d, item) then seen else MarkSeen(d, seen, item.i)
  }

  // ---------------------------------------------------------------------
  // The records of a message
  // ---------------------------------------------------------------------

  /** The records that the encoder writes for a field. */
  function FieldItems(d: Descriptor, i: nat, s: Slot): (r: seq<Item>)
    requires i < |d.fields| && FitsSlot(d.fields[i], s)
  {
    if !IsPresent(d.fields[i], s) then []
    else if !d.fields[i].rule.Repeated? then [Value(i, s.v)]
    else if Packable(d.fields[i].kind) then [Packed(i, s.vs)]
    else ValuesOf(i, s.vs)
  }

  /** One record for each value. */
  function ValuesOf(i: nat, vs: seq<Val>): seq<Item> {
    if vs == [] then [] else ValuesOf(i, vs[..|vs| - 1]) + [Value(i, vs[|vs| - 1])]
  }

  lemma OneValueMore(i: nat, vs: seq<Val>, v: Val)
    ensures ValuesOf(i, vs + [v]) == ValuesOf(i, vs) + [Value(i, v)]
  {
    assert (vs + [v])[..|vs|] == vs;
  }

  lemma {:induction false} ValuesAt(i: nat, vs: seq<Val>, n: nat)
    requires n < |ValuesOf(i, vs)|
    ensures ValuesOf(i, vs)[n].Value? && ValuesOf(i, vs)[n].i == i
  {
    if n < |ValuesOf(i, vs)| - 1 {
      ValuesAt(i, vs[..|vs| - 1], n);
    }
  }

  function ItemsOf(d: Descriptor, m: seq<Slot>, n: nat): (r: seq<Item>)
    requires Fits(d, m) && n <= |m|
  {
    if n == 0 then [] else ItemsOf(d, m, n - 1) + FieldItems(d, n - 1, m[n - 1])
  }

  function JoinedBytes(a: Option<Bytes>, b: Option<Bytes>): Option<Bytes> {
    if a.None? || b.None? then None else Some(a.value + b.value)
  }

  predicate BytesJoin(d: Descriptor, a: seq<Item>, b: seq<Item>) {
    ItemsBytes(d, a + b) == JoinedBytes(ItemsBytes(d, a), ItemsBytes(d, b))
  }

  lemma BytesOfLast(d: Descriptor, init: seq<Item>, x: Item)
    ensures ItemsBytes(d, init + [x]) == JoinedBytes(ItemsBytes(d, init), ItemBytes(d, x))
  {
    assert (init + [x])[..|init|] == init;
  }

  lemma JoinedRegroup(a: Option<Bytes>, b: Option<Bytes>, c: Option<Bytes>)
    ensures JoinedBytes(JoinedBytes(a, b), c) == JoinedBytes(a, JoinedBytes(b, c))
  {
    if a.Some? && b.Some? && c.Some? {
      Regroup(a.value, b.value, c.value);
    }
  }

  lemma BytesJoinOneMore(d: Descriptor, a: seq<Item>, b: seq<Item>, x: Item)
    requires BytesJoin(d, a, b)
    ensures BytesJoin(d, a, b + [x])
  {
    Regroup(a, b, [x]);
    BytesOfLast(d, a + b, x);
    BytesOfLast(d, b, x);
    JoinedRegroup(ItemsBytes(d, a), ItemsBytes(d, b), ItemBytes(d, x));
  }

  lemma BytesJoinNothing(d: Descriptor, a: seq<Item>)
    ensures BytesJoin(d, a, [])
  {
    assert a + [] == a && (ItemsBytes(d, a).Some? ==> ItemsBytes(d, a).value + [] == ItemsBytes(d, a).value);
  }

  lemma BytesAppend(d: Descriptor, a: seq<Item>, b: seq<Item>)
    ensures BytesJoin(d, a, b)
  {
    BytesJoinNothing(d, a);
    forall c, x | BytesJoin(d, a, c) ensures BytesJoin(d, a, c + [x]) {
      BytesJoinOneMore(d, a, c, x);
    }
    FromPrefixes((c: seq<Item>) => BytesJoin(d, a, c), b);
  }

  lemma BytesOfOne(d: Descriptor, item: Item)
    requires ItemOk(d, item)
    ensures ItemsBytes(d, [item]) == ItemBytes(d, item)
  {
    assert [item][..0] == [];
    if ItemBytes(d, item).Some? {
      assert [] + ItemBytes(d, item).value == ItemBytes(d, item).value;
    }
  }

  lemma {:induction false} EncodeValsLast(prefix: Bytes, k: Kind, vs: seq<Val>, v: Val)
    ensures EncodeVals(prefix, k, vs + [v])
         == JoinedBytes(EncodeVals(prefix, k, vs), JoinedBytes(Some(prefix), EncodeVal(k, v)))
    decreases |vs|
  {
    if vs == [] {
      assert [v][1..] == [] && [] + [v] == [v];
      if EncodeVal(k, v).Some? {
        NothingAround(prefix + EncodeVal(k, v).value);
      }
    } else {
      assert (vs + [v])[1..] == vs[1..] + [v] && (vs + [v])[0] == vs[0];
      EncodeValsLast(prefix, k, vs[1..], v);
      JoinedRegroup(JoinedBytes(Some(prefix), EncodeVal(k, vs[0])), EncodeVals(prefix, k, vs[1..]),
                    JoinedBytes(Some(prefix), EncodeVal(k, v)));
    }
  }

  lemma NothingAround(b: Bytes)
    ensures b + [] == b && [] + b == b
  {
  }

  /** The values, encoded one after the other, are these records. */
  predicate AreValueBytes(d: Descriptor, i: nat, vs: seq<Val>) {
    && i < |d.fields|
    && (AllFit(d.fields[i].kind, vs) ==>
          ItemsBytes(d, ValuesOf(i, vs))
          == EncodeVals(TagBytes(d.fields[i].tag, WireType(d.fields[i].kind)), d.fields[i].kind, vs))
  }

  predicate AllFit(k: Kind, vs: seq<Val>) {
    forall i :: 0 <= i < |vs| ==> FitsVal(k, vs[i])
  }

  lemma AllFitOneMore(k: Kind, vs: seq<Val>, v: Val)
    ensures AllFit(k, vs + [v]) <==> AllFit(k, vs) && FitsVal(k, v)
  {
    var all := vs + [v];
    assert all[|vs|] == v && forall i :: 0 <= i < |vs| ==> all[i] == vs[i];
  }

  lemma ValueBytesOneMore(d: Descriptor, i: nat, vs: seq<Val>, v: Val)
    requires AreValueBytes(d, i, vs)
    ensures AreValueBytes(d, i, vs + [v])
  {
    var k, prefix := d.fields[i].kind, TagBytes(d.fields[i].tag, WireType(d.fields[i].kind));
    AllFitOneMore(k, vs, v);
    if AllFit(k, vs + [v]) {
      OneValueMore(i, vs, v);
      BytesOfLast(d, ValuesOf(i, vs), Value(i, v));
      assert ItemBytes(d, Value(i, v)) == JoinedBytes(Some(prefix), EncodeVal(k, v));
      EncodeValsLast(prefix, k, vs, v);
    }
  }

  lemma ValuesAreItems(d: Descriptor, i: nat, vs: seq<Val>)
    requires i < |d.fields|
    ensures AreValueBytes(d, i, vs)
  {
    forall a, v | AreValueBytes(d, i, a) ensures AreValueBytes(d, i, a + [v]) {
      ValueBytesOneMore(d, i, a, v);
    }
    FromPrefixes((a: seq<Val>) => AreValueBytes(d, i, a), vs);
  }

  lemma FieldIsItems(d: Descriptor, i: nat, s: Slot)
    requires i < |d.fields| && FitsSlot(d.fields[i], s)
    ensures ItemsBytes(d, FieldItems(d, i, s)) == EncodeField(d.fields[i], s)
  {
    var f := d.fields[i];
    if !IsPresent(f, s) {
      NotPresentIsEmpty(f, s);
    } else if !f.rule.Repeated? {
      BytesOfOne(d, Value(i, s.v));
    } else if Packable(f.kind) {
      BytesOfOne(d, Packed(i, s.vs));
    } else {
      ValuesAreItems(d, i, s.vs);
    }
  }

  /** The encoder writes exactly these records. */
  predicate WritesItems(d: Descriptor, m: seq<Slot>, n: nat)
    requires Fits(d, m) && n <= |m|
  {
    ItemsBytes(d, ItemsOf(d, m, n)) == EncodeFields(d, m, n)
  }

  lemma WritesNextItems(d: Descriptor, m: seq<Slot>, n: nat)
    requires Fits(d, m) && n < |m| && WritesItems(d, m, n)
    ensures WritesItems(d, m, n + 1)
  {
    FieldIsItems(d, n, m[n]);
    BytesAppend(d, ItemsOf(d, m, n), FieldItems(d, n, m[n]));
  }

  lemma EncodingIsItems(d: Descriptor, m: seq<Slot>, n: nat)
    requires Fits(d, m) && n <= |m|
    ensures WritesItems(d, m, n)
  {
    var p := (k: nat) => k <= |m| && WritesItems(d, m, k);
    forall k | 0 <= k < n && p(k) ensures p(k + 1) {
      WritesNextItems(d, m, k);
    }
    UpFrom(p, 0, n);
  }

  // ---------------------------------------------------------------------
  // Receiving the records of a message
  // ---------------------------------------------------------------------

  lemma AfterOneMore(d: Descriptor, s: Slot, init: seq<Item>, x: Item, j: nat)
    requires j < |d.fields|
    ensures SlotAfterAll(d, s, init + [x], j) == SlotAfter(d, SlotAfterAll(d, s, init, j), x, j)
    ensures SlotFits(d, s, init + [x], j) <==>
      SlotFits(d, s, init, j) && ItemFitsSlot(d, SlotAfterAll(d, s, init, j), x, j)
  {
    assert (init + [x])[..|init|] == init;
  }

  lemma {:induction false} AfterAppend(d: Descriptor, s: Slot, a: seq<Item>, b: seq<Item>, j: nat)
    requires j < |d.fields|
    ensures SlotAfterAll(d, s, a + b, j) == SlotAfterAll(d, SlotAfterAll(d, s, a, j), b, j)
    decreases |b|
  {
    if b == [] {
      assert a + b == a;
    } else {
      var c, x := b[..|b| - 1], b[|b| - 1];
      assert b == c + [x];
      Regroup(a, c, [x]);
      AfterAppend(d, s, a, c, j);
      AfterOneMore(d, s, a + c, x, j);
    }
  }

  lemma AfterSingle(d: Descriptor, s: Slot, item: Item, j: nat)
    requires j < |d.fields|
    ensures SlotAfterAll(d, s, [item], j) == SlotAfter(d, s, item, j)
  {
    assert [item][..0] == [];
  }

  lemma {:induction false} Untouched(d: Descriptor, s: Slot, items: seq<Item>, j: nat)
    requires j < |d.fields| && forall n :: 0 <= n < |items| ==> !Touches(d, items[n], j)
    ensures SlotAfterAll(d, s, items, j) == s
  {
    if items != [] {
      Untouched(d, s, items[..|items| - 1], j);
    }
  }

  lemma ValueReceived(d: Descriptor, s: Slot, i: nat, v: Val)
    requires i < |d.fields| && d.fields[i].rule.Repeated? && FitsVal(d.fields[i].kind, v)
    ensures SlotAfter(d, s, Value(i, v), i)
         == Many(ItemsIn(s) + [Merged(d.fields[i].kind, DefaultVal(d.fields[i].kind, d.fields[i].default), v)])
  {
  }

  /** Slot `s` with the items of an array behind what it holds. */
  function WithItems(f: Field, s: Slot, vs: seq<Val>): Slot
    requires AllFit(f.kind, vs)
  {
    if vs == [] then s else Many(ItemsIn(s) + MergedVals(f.kind, f.default, vs))
  }

  lemma MergedValsOneMore(k: Kind, default: Val, vs: seq<Val>, v: Val)
    requires AllFit(k, vs) && AllFit(k, vs + [v]) && FitsVal(k, v)
    ensures MergedVals(k, default, vs + [v]) == MergedVals(k, default, vs) + [Merged(k, DefaultVal(k, default), v)]
  {
  }

  lemma OneItemBehind(f: Field, s: Slot, vs: seq<Val>, v: Val)
    requires AllFit(f.kind, vs) && AllFit(f.kind, vs + [v]) && FitsVal(f.kind, v)
    ensures Many(ItemsIn(WithItems(f, s, vs)) + [Merged(f.kind, DefaultVal(f.kind, f.default), v)])
         == WithItems(f, s, vs + [v])
  {
    MergedValsOneMore(f.kind, f.default, vs, v);
    Regroup(ItemsIn(s), MergedVals(f.kind, f.default, vs), [Merged(f.kind, DefaultVal(f.kind, f.default), v)]);
    assert vs == [] ==> MergedVals(f.kind, f.default, vs) == [] && ItemsIn(s) + [] == ItemsIn(s);
  }

  /** The items of an array are appended one by one. */
  predicate AppendsAll(d: Descriptor, s: Slot, i: nat, vs: seq<Val>) {
    && i < |d.fields| && d.fields[i].rule.Repeated?
    && (AllFit(d.fields[i].kind, vs) ==>
          SlotAfterAll(d, s, ValuesOf(i, vs), i) == WithItems(d.fields[i], s, vs))
  }

  lemma AppendsOneMore(d: Descriptor, s: Slot, i: nat, vs: seq<Val>, v: Val)
    requires AppendsAll(d, s, i, vs)
    ensures AppendsAll(d, s, i, vs + [v])
  {
    AllFitOneMore(d.fields[i].kind, vs, v);
    if AllFit(d.fields[i].kind, vs + [v]) {
      OneValueMore(i, vs, v);
      AfterOneMore(d, s, ValuesOf(i, vs), Value(i, v), i);
      ValueReceived(d, WithItems(d.fields[i], s, vs), i, v);
      OneItemBehind(d.fields[i], s, vs, v);
    }
  }

  lemma ValuesAppend(d: Descriptor, s: Slot, i: nat, vs: seq<Val>)
    requires i < |d.fields| && d.fields[i].rule.Repeated?
    ensures AppendsAll(d, s, i, vs)
  {
    forall a, v | AppendsAll(d, s, i, a) ensures AppendsAll(d, s, i, a + [v]) {
      AppendsOneMore(d, s, i, a, v);
    }
    FromPrefixes((a: seq<Val>) => AppendsAll(d, s, i, a), vs);
  }

  /** What the records of field `i` do to slot `j`. */
  lemma FieldAt(d: Descriptor, s: Slot, i: nat, m: Slot, j: nat)
    requires i < |d.fields| && j < |d.fields| && FitsSlot(d.fields[i], m)
    ensures SlotAfterAll(d, s, FieldItems(d, i, m), j) ==
      if !IsPresent(d.fields[i], m) then s
      else if i == j then MergedSlot(d.fields[j], s, m)
      else if Siblings(d, i, j) then DefaultSlot(d.fields[j])
      else s
  {
    var f, items := d.fields[i], FieldItems(d, i, m);
    if IsPresent(f, m) {
      if !f.rule.Repeated? {
        AfterSingle(d, s, Value(i, m.v), j);
      } else if Packable(f.kind) {
        AfterSingle(d, s, Packed(i, m.vs), j);
        assert MergedVals(f.kind, f.default, m.vs) == m.vs;
      } else if i == j {
        ValuesAppend(d, s, i, m.vs);
      } else {
        forall n | 0 <= n < |items| ensures !Touches(d, items[n], j) {
          ValuesAt(i, m.vs, n);
        }
        Untouched(d, s, items, j);
      }
    }
  }

  lemma OneOfUnion(d: Descriptor, m: seq<Slot>, i: nat, j: nat)
    requires Fits(d, m) && i < |m| && j < |m| && Siblings(d, i, j)
    ensures !IsPresent(d.fields[i], m[i]) || !IsPresent(d.fields[j], m[j])
  {
    assert FitsSlot(d.fields[i], m[i]) && FitsSlot(d.fields[j], m[j]);
  }

  lemma NotDisplaced(d: Descriptor, m: seq<Slot>, n: nat, j: nat)
    requires Fits(d, m) && n <= |m| && j < |m| && IsPresent(d.fields[j], m[j])
    ensures !Displaced(d, m, n, j)
  {
    forall i | 0 <= i < n && Siblings(d, i, j) ensures !IsPresent(d.fields[i], m[i]) {
      OneOfUnion(d, m, i, j);
    }
  }

  /** Receiving the records of the first `n` fields merges those fields. */
  lemma {:induction false} MergeSlotwise(d: Descriptor, s: Slot, m: seq<Slot>, n: nat, j: nat)
    requires Fits(d, m) && n <= |m| && j < |m|
    ensures SlotAfterAll(d, s, ItemsOf(d, m, n), j) == MergedAt(d, s, m, n, j)
  {
    if n > 0 {
      var i := n - 1;
      MergeSlotwise(d, s, m, i, j);
      AfterAppend(d, s, ItemsOf(d, m, i), FieldItems(d, i, m[i]), j);
      FieldAt(d, MergedAt(d, s, m, i, j), i, m[i], j);
      MergeOneMore(d, s, m, i, j);
    }
  }

  lemma MergeOneMore(d: Descriptor, s: Slot, m: seq<Slot>, i: nat, j: nat)
    requires Fits(d, m) && i < |m| && j < |m|
    ensures MergedAt(d, s, m, i + 1, j) ==
      var t := MergedAt(d, s, m, i, j);
      if !IsPresent(d.fields[i], m[i]) then t
      else if i == j then MergedSlot(d.fields[j], t, m[j])
      else if Siblings(d, i, j) then DefaultSlot(d.fields[j])
      else t
  {
    if IsPresent(d.fields[j], m[j]) {
      NotDisplaced(d, m, i, j);
      NotDisplaced(d, m, i + 1, j);
    }
  }

  lemma {:induction false} SlotFitsAppend(d: Descriptor, s: Slot, a: seq<Item>, b: seq<Item>, j: nat)
    requires j < |d.fields|
    requires SlotFits(d, s, a, j) && SlotFits(d, SlotAfterAll(d, s, a, j), b, j)
    ensures SlotFits(d, s, a + b, j)
    decreases |b|
  {
    if b == [] {
      assert a + b == a;
    } else {
      var c, x := b[..|b| - 1], b[|b| - 1];
      assert b == c + [x];
      Regroup(a, c, [x]);
      AfterOneMore(d, SlotAfterAll(d, s, a, j), c, x, j);
      SlotFitsAppend(d, s, a, c, j);
      AfterAppend(d, s, a, c, j);
      AfterOneMore(d, s, a + c, x, j);
    }
  }

  lemma SingleFits(d: Descriptor, s: Slot, item: Item, j: nat)
    requires j < |d.fields| && ItemFitsSlot(d, s, item, j)
    ensures SlotFits(d, s, [item], j)
  {
    AfterOneMore(d, s, [], item, j);
    assert [] + [item] == [item];
  }

  /** The items of an array fit slot `j` as long as the array has room. */
  predicate ValuesFitSlot(d: Descriptor, s: Slot, i: nat, vs: seq<Val>, j: nat) {
    && i < |d.fields| && j < |d.fields| && d.fields[i].rule.Repeated?
    && (AllFit(d.fields[i].kind, vs) && (i == j ==> |ItemsIn(s)| + |vs| <= d.fields[i].rule.max) ==>
          SlotFits(d, s, ValuesOf(i, vs), j))
  }

  lemma RoomForOneMore(f: Field, s: Slot, vs: seq<Val>, v: Val)
    requires f.rule.Repeated? && FitsVal(f.kind, v) && AllFit(f.kind, vs) && |ItemsIn(s)| + |vs| < f.rule.max
    ensures ValueFitsSlot(f, WithItems(f, s, vs), v)
  {
  }

  lemma ValuesFitOneMore(d: Descriptor, s: Slot, i: nat, vs: seq<Val>, v: Val, j: nat)
    requires ValuesFitSlot(d, s, i, vs, j)
    ensures ValuesFitSlot(d, s, i, vs + [v], j)
  {
    AllFitOneMore(d.fields[i].kind, vs, v);
    OneValueMore(i, vs, v);
    AfterOneMore(d, s, ValuesOf(i, vs), Value(i, v), j);
    if i == j && AllFit(d.fields[i].kind, vs + [v]) && |ItemsIn(s)| + |vs| < d.fields[i].rule.max {
      ValuesAppend(d, s, i, vs);
      RoomForOneMore(d.fields[i], s, vs, v);
    }
  }

  lemma ValuesFit(d: Descriptor, s: Slot, i: nat, vs: seq<Val>, j: nat)
    requires i < |d.fields| && j < |d.fields| && d.fields[i].rule.Repeated?
    ensures ValuesFitSlot(d, s, i, vs, j)
  {
    forall a, v | ValuesFitSlot(d, s, i, a, j) ensures ValuesFitSlot(d, s, i, a + [v], j) {
      ValuesFitOneMore(d, s, i, a, v, j);
    }
    FromPrefixes((a: seq<Val>) => ValuesFitSlot(d, s, i, a, j), vs);
  }

  /** The records of a field fit where the field fits. */
  lemma FieldFits(d: Descriptor, s: Slot, i: nat, m: Slot, j: nat)
    requires i < |d.fields| && j < |d.fields| && FitsSlot(d.fields[i], m)
    requires i == j && IsPresent(d.fields[i], m) ==> SlotRoom(d.fields[i], s, m)
    ensures SlotFits(d, s, FieldItems(d, i, m), j)
  {
    var f, items := d.fields[i], FieldItems(d, i, m);
    if IsPresent(f, m) {
      if !f.rule.Repeated? {
        SingleFits(d, s, Value(i, m.v), j);
      } else if Packable(f.kind) {
        SingleFits(d, s, Packed(i, m.vs), j);
      } else {
        ValuesFit(d, s, i, m.vs, j);
      }
    }
  }

  lemma UndisturbedSoFar(d: Descriptor, s: Slot, m: seq<Slot>, j: nat)
    requires Fits(d, m) && j < |m| && IsPresent(d.fields[j], m[j])
    ensures MergedAt(d, s, m, j, j) == s
  {
    NotDisplaced(d, m, j, j);
  }

  ghost predicate RoomAt(d: Descriptor, s: Slot, m: seq<Slot>, j: nat)
    requires Fits(d, m) && j < |m|
  {
    IsPresent(d.fields[j], m[j]) ==> SlotRoom(d.fields[j], s, m[j])
  }

  /** The records of the first `n` fields fit slot `j`. */
  predicate FitsUpTo(d: Descriptor, s: Slot, m: seq<Slot>, n: nat, j: nat) {
    Fits(d, m) && n <= |m| && j < |m| && SlotFits(d, s, ItemsOf(d, m, n), j)
  }

  lemma NextFieldFits(d: Descriptor, s: Slot, m: seq<Slot>, i: nat, j: nat)
    requires Fits(d, m) && i < |m| && j < |m| && FitsUpTo(d, s, m, i, j) && RoomAt(d, s, m, j)
    ensures FitsUpTo(d, s, m, i + 1, j)
  {
    var a, b := ItemsOf(d, m, i), FieldItems(d, i, m[i]);
    MergeSlotwise(d, s, m, i, j);
    if i == j && IsPresent(d.fields[j], m[j]) {
      UndisturbedSoFar(d, s, m, j);
    }
    FieldFits(d, MergedAt(d, s, m, i, j), i, m[i], j);
    assert ItemsOf(d, m, i + 1) == a + b;
    SlotFitsAppend(d, s, a, b, j);
  }

  lemma MessageFits(d: Descriptor, s: Slot, m: seq<Slot>, n: nat, j: nat)
    requires Fits(d, m) && n <= |m| && j < |m| && RoomAt(d, s, m, j)
    ensures FitsUpTo(d, s, m, n, j)
  {
    forall k | 0 <= k < n && FitsUpTo(d, s, m, k, j) ensures FitsUpTo(d, s, m, k + 1, j) {
      NextFieldFits(d, s, m, k, j);
    }
    UpFrom((k: nat) => FitsUpTo(d, s, m, k, j), 0, n);
  }

  lemma ReceivingMerges(d: Descriptor, m: seq<Slot>, start: seq<Slot>)
    requires Fits(d, m) && |start| == |d.fields|
    ensures AfterItems(d, start, ItemsOf(d, m, |m|)) == MergeInto(d, start, m)
    ensures RoomFor(d, start, m) ==> ItemsFit(d, start, ItemsOf(d, m, |m|))
  {
    forall j | 0 <= j < |start| ensures AfterItems(d, start, ItemsOf(d, m, |m|))[j] == MergeInto(d, start, m)[j] {
      MergeSlotwise(d, start[j], m, |m|, j);
    }
    if RoomFor(d, start, m) {
      forall j | 0 <= j < |start| ensures SlotFits(d, start[j], ItemsOf(d, m, |m|), j) {
        MessageFits(d, start[j], m, |m|, j);
      }
    }
  }

  // ---------------------------------------------------------------------
  // Required fields
  // ---------------------------------------------------------------------

  function SeenUpTo(d: Descriptor, n: nat): set<nat>
    requires n <= |d.fields|
  {
    if n == 0 then {} else MarkSeen(d, SeenUpTo(d, n - 1), n - 1)
  }

  lemma {:induction false} SeenIsAll(d: Descriptor, n: nat)
    requires n <= |d.fields|
    ensures forall k :: 0 <= k < RequiredBefore(d, n) && k < MAX_REQUIRED_FIELDS ==> k in SeenUpTo(d, n)
  {
    if n > 0 {
      SeenIsAll(d, n - 1);
    }
  }

  lemma {:induction false} SeenAppend(d: Descriptor, seen: set<nat>, a: seq<Item>, b: seq<Item>)
    ensures SeenAfter(d, seen, a + b) == SeenAfter(d, SeenAfter(d, seen, a), b)
    decreases |b|
  {
    if b == [] {
      assert a + b == a;
    } else {
      var n := |b| - 1;
      assert (a + b)[..|a| + n] == a + b[..n];
      SeenAppend(d, seen, a, b[..n]);
    }
  }

  lemma {:induction false} SeenUnmoved(d: Descriptor, seen: set<nat>, i: nat, items: seq<Item>)
    requires i < |d.fields| && !d.fields[i].rule.Required?
    requires forall n :: 0 <= n < |items| ==> !items[n].Unknown? && items[n].i == i
    ensures SeenAfter(d, seen, items) == seen
  {
    if items != [] {
      SeenUnmoved(d, seen, i, items[..|items| - 1]);
    }
  }

  lemma FieldIsSeen(d: Descriptor, seen: set<nat>, i: nat, m: Slot)
    requires i < |d.fields| && FitsSlot(d.fields[i], m)
    ensures SeenAfter(d, seen, FieldItems(d, i, m)) == MarkSeen(d, seen, i)
  {
    if d.fields[i].rule.Required? {
      assert [Value(i, m.v)][..0] == [];
    } else {
      var items := FieldItems(d, i, m);
      forall n | 0 <= n < |items| ensures !items[n].Unknown? && items[n].i == i {
        if d.fields[i].rule.Repeated? && !Packable(d.fields[i].kind) {
          ValuesAt(i, m.vs, n);
        }
      }
      SeenUnmoved(d, seen, i, items);
    }
  }

  predicate SeesFields(d: Descriptor, m: seq<Slot>, n: nat) {
    Fits(d, m) && n <= |m| && SeenAfter(d, {}, ItemsOf(d, m, n)) == SeenUpTo(d, n)
  }

  lemma SeesNextField(d: Descriptor, m: seq<Slot>, n: nat)
    requires SeesFields(d, m, n) && n < |m|
    ensures SeesFields(d, m, n + 1)
  {
    SeenAppend(d, {}, ItemsOf(d, m, n), FieldItems(d, n, m[n]));
    FieldIsSeen(d, SeenUpTo(d, n), n, m[n]);
  }

  lemma MessageIsSeen(d: Descriptor, m: seq<Slot>, n: nat)
    requires Fits(d, m) && n <= |m|
    ensures SeesFields(d, m, n)
  {
    forall k | 0 <= k < n && SeesFields(d, m, k) ensures SeesFields(d, m, k + 1) {
      SeesNextField(d, m, k);
    }
    UpFrom((k: nat) => SeesFields(d, m, k), 0, n);
  }

  // ---------------------------------------------------------------------
  // Skipping records of no field
  // ---------------------------------------------------------------------

  lemma {:induction false} SkipsVarint(n: nat, rest: Bytes)
    ensures SkipVarint(EncodeVarint(n) + rest) == Some(rest)
  {
    FirstByte(n, rest, EncodeVarint(n) + rest);
    if n >= 128 {
      SkipsVarint(n / 128, rest);
    }
  }

  lemma SkipsData(b: Bytes, rest: Bytes)
    requires WithLength(b).Some? && |WithLength(b).value| < WORD32
    ensures SkipField(WT_STRING, WithLength(b).value + rest) == Some(rest)
  {
    SubstreamRoundTrip(b, rest);
  }

  lemma SkipsFixed(e: Bytes, rest: Bytes)
    ensures |e| == 4 ==> SkipField(WT_32BIT, e + rest) == Some(rest)
    ensures |e| == 8 ==> SkipField(WT_64BIT, e + rest) == Some(rest)
  {
    assert (e + rest)[|e|..] == rest;
  }

  /** Whatever a record of no field holds, exactly its payload is skipped. */
  lemma SkipFieldSkips(k: Kind, v: Val, rest: Bytes)
    requires EncodeVal(k, v).Some? && |EncodeVal(k, v).value| < WORD32
    ensures SkipField(WireType(k), EncodeVal(k, v).value + rest) == Some(rest)
  {
    match k
    case Bool => SkipsVarint(if v.n != 0 then 1 else 0, rest);
    case Varint(_) => SkipsVarint(ToUnsigned(v.n), rest);
    case UVarint(_) => SkipsVarint(v.n, rest);
    case SVarint(_) => SkipsVarint(ZigZag(v.n), rest);
    case Fixed32 => SkipsFixed(EncodeFixed32(Word(v) % WORD32), rest);
    case Fixed64 => SkipsFixed(EncodeFixed64(Word(v) % WORD64), rest);
    case BytesOf(_) => SkipsData(v.b, rest);
    case StringOf(_) => SkipsData(CString(v.b), rest);
    case FixedBytes(_) => SkipsData(v.b, rest);
    case Message(d) => SkipsData(EncodeFields(d, v.slots, |d.fields|).value, rest);
  }

  // ---------------------------------------------------------------------
  // One record
  // ---------------------------------------------------------------------

  function AfterOne(d: Descriptor, slots: seq<Slot>, item: Item): (r: seq<Slot>)
    requires |slots| == |d.fields|
    ensures |r| == |d.fields|
  {
    seq(|slots|, j requires 0 <= j < |slots| => SlotAfter(d, slots[j], item, j))
  }

  /** What the decoder holds after a record. */
  function ProgressAfter(d: Descriptor, st: Progress, item: Item): (r: Progress)
    requires |st.slots| == |d.fields|
    ensures |r.slots| == |d.fields|
  {
    Progress(AfterOne(d, st.slots, item), SeenAfterOne(d, st.seen, item))
  }

  /** The record finds room where it goes. */
  predicate FindsRoom(d: Descriptor, slots: seq<Slot>, item: Item)
    requires ItemOk(d, item) && |slots| == |d.fields|
  {
    item.Unknown? || ItemFitsSlot(d, slots[item.i], item, item.i)
  }

  predicate Short(e: Option<Bytes>) {
    e.Some? && |e.value| < WORD32
  }

  lemma UnknownArrives(d: Descriptor, tag: nat, k: Kind, v: Val, rest: Bytes, st: Progress)
    requires ItemOk(d, Unknown(tag, k, v)) && |st.slots| == |d.fields|
    requires Short(ItemBytes(d, Unknown(tag, k, v)))
    ensures DecodeFields(d, ItemBytes(d, Unknown(tag, k, v)).value + rest, st) == DecodeFields(d, rest, st)
  {
    var head, payload := TagBytes(tag, WireType(k)), EncodeVal(k, v).value;
    Regroup(head, payload, rest);
    TagRoundTrip(tag, WireType(k), payload + rest);
    SkipFieldSkips(k, v, rest);
    UnfoldUnknown(d, head + (payload + rest), payload + rest, tag * 8 + WireType(k), st, rest);
  }

  lemma UnfoldUnknown(d: Descriptor, b: Bytes, afterTag: Bytes, temp: Word32, st: Progress, rest: Bytes)
    requires |d.fields| == |st.slots| && temp != 0
    requires b != [] && DecodeVarint32(b) == Some(Decoded(temp, afterTag)) && Find(d, temp / 8) == None
    requires SkipUnknown(d, temp / 8, temp % 8, afterTag) == Some(rest)
    ensures DecodeFields(d, b, st) == DecodeFields(d, rest, st)
  {
  }

  lemma StoreIsAfter(d: Descriptor, slots: seq<Slot>, item: Item)
    requires ItemOk(d, item) && !item.Unknown? && |slots| == |d.fields|
    ensures Store(d, slots, item.i, SlotAfter(d, slots[item.i], item, item.i)) == AfterOne(d, slots, item)
  {
  }

  /** What the value of a record is decoded on top of. */
  function Base(f: Field, s: Slot): Val {
    if f.rule.Repeated? || f.rule.OneOf? then DefaultVal(f.kind, f.default) else Current(f, s)
  }

  lemma BaseHasRoom(f: Field, s: Slot, v: Val)
    requires FitsVal(f.kind, v) && ValueFitsSlot(f, s, v)
    ensures HasRoom(f.kind, Base(f, s), v)
  {
    if f.rule.Repeated? || f.rule.OneOf? {
      DefaultsHaveRoom(f.kind, f.default, v);
    }
  }

  lemma SlotOfValue(f: Field, b: Bytes, v: Val, rest: Bytes, s: Slot)
    requires FitsVal(f.kind, v) && ValueFitsSlot(f, s, v)
    requires DecodeVal(f.kind, b, Base(f, s)) == Some(Decoded(Merged(f.kind, Base(f, s), v), rest))
    ensures DecodeSlot(f, WireType(f.kind), b, s) == Some(Decoded(Received(f, s, v), rest))
  {
  }

  lemma ValueIsDecoded(f: Field, v: Val, rest: Bytes, s: Slot)
    requires GoodKind(f.kind) && FitsVal(f.kind, v) && ValueFitsSlot(f, s, v) && Short(EncodeVal(f.kind, v))
    ensures DecodeSlot(f, WireType(f.kind), EncodeVal(f.kind, v).value + rest, s)
         == Some(Decoded(Received(f, s, v), rest))
    decreases f, 0
  {
    BaseHasRoom(f, s, v);
    ValueArrives(f.kind, Base(f, s), v, rest);
    SlotOfValue(f, EncodeVal(f.kind, v).value + rest, v, rest, s);
  }

  lemma ArrayIsDecoded(f: Field, vs: seq<Val>, rest: Bytes, s: Slot, body: Bytes)
    requires f.rule.Repeated? && Packable(f.kind) && GoodKind(f.kind) && |ItemsIn(s)| + |vs| <= f.rule.max
    requires forall j :: 0 <= j < |vs| ==> FitsVal(f.kind, vs[j])
    requires EncodeVals([], f.kind, vs) == Some(body) && |body| < WORD32
    ensures DecodeSlot(f, WT_STRING, (EncodeVarint(|body|) + body) + rest, s)
         == Some(Decoded(Many(ItemsIn(s) + vs), rest))
  {
    PackedRoundTrip(f.kind, vs, ItemsIn(s), f.rule.max);
    SubstreamRoundTrip(body, rest);
  }

  /** Decoding one record changes the slots as it says, and nothing else. */
  lemma ItemArrives(d: Descriptor, item: Item, rest: Bytes, st: Progress)
    requires Good(d) && ItemOk(d, item) && Short(ItemBytes(d, item)) && |st.slots| == |d.fields|
    requires FindsRoom(d, st.slots, item)
    ensures DecodeFields(d, ItemBytes(d, item).value + rest, st) == DecodeFields(d, rest, ProgressAfter(d, st, item))
    decreases d, 0
  {
    match item
    case Unknown(tag, k, v) =>
      UnknownArrives(d, tag, k, v, rest, st);
      assert AfterOne(d, st.slots, item) == st.slots;
    case Value(i, v) =>
      var f := d.fields[i];
      ValueIsDecoded(f, v, rest, st.slots[i]);
      RecordStep(d, i, WireType(f.kind), EncodeVal(f.kind, v).value, rest, st, Received(f, st.slots[i], v));
      StoreIsAfter(d, st.slots, item);
    case Packed(i, vs) =>
      var f := d.fields[i];
      var body := EncodeVals([], f.kind, vs).value;
      ArrayIsDecoded(f, vs, rest, st.slots[i], body);
      RecordStep(d, i, WT_STRING, EncodeVarint(|body|) + body, rest, st, Many(ItemsIn(st.slots[i]) + vs));
      StoreIsAfter(d, st.slots, item);
  }

  /** A value received where `current` was, submessages included. */
  lemma ValueArrives(k: Kind, current: Val, v: Val, rest: Bytes)
    requires GoodKind(k) && FitsVal(k, v) && Short(EncodeVal(k, v)) && HasRoom(k, current, v)
    ensures DecodeVal(k, EncodeVal(k, v).value + rest, current) == Some(Decoded(Merged(k, current, v), rest))
    decreases k, 1
  {
    if Packable(k) {
      NumberRoundTrip(k, v, rest);
    } else if k.Message? {
      var d := k.descriptor;
      MessageArrives(d, v.slots, SlotsOf(d, current));
      SubstreamRoundTrip(EncodeFields(d, v.slots, |d.fields|).value, rest);
    } else {
      DataRoundTrip(k, v, rest);
    }
  }

  // ---------------------------------------------------------------------
  // Many records
  // ---------------------------------------------------------------------

  /** What the decoder holds after the first `n` records. */
  function ProgressAt(d: Descriptor, st: Progress, items: seq<Item>, n: nat): (r: Progress)
    requires n <= |items| && |st.slots| == |d.fields|
    ensures |r.slots| == |d.fields|
  {
    Progress(AfterItems(d, st.slots, items[..n]), SeenAfter(d, st.seen, items[..n]))
  }

  lemma OneItemMore(d: Descriptor, st: Progress, items: seq<Item>, n: nat)
    requires n < |items| && |st.slots| == |d.fields|
    ensures ProgressAt(d, st, items, n + 1) == ProgressAfter(d, ProgressAt(d, st, items, n), items[n])
  {
    assert items[..n + 1][..n] == items[..n];
  }

  /** Some decoder gets past record `n`. */
  ghost predicate ReadsItem(decode: (Bytes, Progress) -> Option<Progress>, d: Descriptor, st: Progress,
                            items: seq<Item>, n: nat)
    requires n < |items| && |st.slots| == |d.fields|
  {
    && ItemBytes(d, items[n]).Some?
    && forall rest ::
         decode(ItemBytes(d, items[n]).value + rest, ProgressAt(d, st, items, n))
         == decode(rest, ProgressAt(d, st, items, n + 1))
  }

  lemma BytesOfNext(d: Descriptor, items: seq<Item>, n: nat)
    requires n < |items| && ItemsBytes(d, items[..n + 1]).Some?
    ensures ItemsBytes(d, items[..n]).Some? && ItemBytes(d, items[n]).Some?
    ensures ItemsBytes(d, items[..n + 1]).value == ItemsBytes(d, items[..n]).value + ItemBytes(d, items[n]).value
  {
    assert items[..n + 1][..n] == items[..n];
  }

  /** A decoder that gets past every single record gets past all of them. */
  lemma {:induction false} ItemByItem(decode: (Bytes, Progress) -> Option<Progress>, d: Descriptor, st: Progress,
                                      items: seq<Item>, n: nat, rest: Bytes)
    requires n <= |items| && |st.slots| == |d.fields| && ItemsBytes(d, items[..n]).Some?
    requires forall k :: 0 <= k < n ==> ReadsItem(decode, d, st, items, k)
    ensures decode(ItemsBytes(d, items[..n]).value + rest, ProgressAt(d, st, items, 0))
         == decode(rest, ProgressAt(d, st, items, n))
  {
    if n == 0 {
      assert [] + rest == rest;
    } else {
      BytesOfNext(d, items, n - 1);
      ItemByItem(decode, d, st, items, n - 1, ItemBytes(d, items[n - 1]).value + rest);
      OneItemFurther(decode, d, st, items, n - 1, rest);
    }
  }

  lemma OneItemFurther(decode: (Bytes, Progress) -> Option<Progress>, d: Descriptor, st: Progress, items: seq<Item>,
                       n: nat, rest: Bytes)
    requires n < |items| && |st.slots| == |d.fields| && ReadsItem(decode, d, st, items, n)
    requires ItemsBytes(d, items[..n]).Some? && ItemsBytes(d, items[..n + 1]).Some?
    requires decode(ItemsBytes(d, items[..n]).value + (ItemBytes(d, items[n]).value + rest),
                    ProgressAt(d, st, items, 0))
          == decode(ItemBytes(d, items[n]).value + rest, ProgressAt(d, st, items, n))
    ensures decode(ItemsBytes(d, items[..n + 1]).value + rest, ProgressAt(d, st, items, 0))
         == decode(rest, ProgressAt(d, st, items, n + 1))
  {
    BytesOfNext(d, items, n);
    Regroup(ItemsBytes(d, items[..n]).value, ItemBytes(d, items[n]).value, rest);
  }

  lemma {:induction false} ItemIsPart(d: Descriptor, items: seq<Item>, n: nat, k: nat)
    requires k < n <= |items| && ItemsBytes(d, items[..n]).Some?
    ensures ItemBytes(d, items[k]).Some?
    ensures |ItemBytes(d, items[k]).value| <= |ItemsBytes(d, items[..n]).value|
    decreases n
  {
    BytesOfNext(d, items, n - 1);
    if k < n - 1 {
      ItemIsPart(d, items, n - 1, k);
    }
  }

  lemma ItemFindsRoom(d: Descriptor, slots: seq<Slot>, items: seq<Item>, n: nat)
    requires n < |items| && |slots| == |d.fields| && ItemsFit(d, slots, items) && ItemOk(d, items[n])
    ensures FindsRoom(d, AfterItems(d, slots, items[..n]), items[n])
  {
    if !items[n].Unknown? {
      assert SlotFits(d, slots[items[n].i], items, items[n].i);
      SlotFitsAt(d, slots[items[n].i], items, items[n].i, n);
    }
  }

  /** Decoding records that find room: each changes the slots as it says. */
  lemma ItemsArrive(d: Descriptor, items: seq<Item>, rest: Bytes, st: Progress)
    requires Good(d) && Short(ItemsBytes(d, items)) && |st.slots| == |d.fields|
    requires ItemsFit(d, st.slots, items)
    ensures DecodeFields(d, ItemsBytes(d, items).value + rest, st)
         == DecodeFields(d, rest, Progress(AfterItems(d, st.slots, items), SeenAfter(d, st.seen, items)))
    decreases d, 1
  {
    var all := |items|;
    assert items[..all] == items && items[..0] == [] && AfterItems(d, st.slots, []) == st.slots;
    var decode := (b: Bytes, p: Progress) => if |p.slots| == |d.fields| then DecodeFields(d, b, p) else None;
    forall n | 0 <= n < all ensures ReadsItem(decode, d, st, items, n) {
      ItemIsPart(d, items, all, n);
      ItemFindsRoom(d, st.slots, items, n);
      OneItemMore(d, st, items, n);
      forall more { ItemArrives(d, items[n], more, ProgressAt(d, st, items, n)); }
    }
    ItemByItem(decode, d, st, items, all, rest);
  }

  lemma AllItemsArrive(d: Descriptor, items: seq<Item>, start: seq<Slot>)
    requires Good(d) && Short(ItemsBytes(d, items)) && |start| == |d.fields|
    requires ItemsFit(d, start, items)
    ensures DecodeFields(d, ItemsBytes(d, items).value, Progress(start, {}))
         == Some(Progress(AfterItems(d, start, items), SeenAfter(d, {}, items)))
    decreases d, 2
  {
    ItemsArrive(d, items, [], Progress(start, {}));
    assert ItemsBytes(d, items).value + [] == ItemsBytes(d, items).value;
  }

  /** Decoding an encoded message on top of `start` merges it into `start`. */
  lemma MessageArrives(d: Descriptor, m: seq<Slot>, start: seq<Slot>)
    requires Good(d) && Fits(d, m) && Short(Encode(d, m)) && |start| == |d.fields| && RoomFor(d, start, m)
    ensures Decode(d, Encode(d, m).value, start) == Some(MergeInto(d, start, m))
    decreases d, 3
  {
    EncodingIsItems(d, m, |m|);
    ReceivingMerges(d, m, start);
    AllItemsArrive(d, ItemsOf(d, m, |m|), start);
    MessageIsSeen(d, m, |m|);
    SeenIsAll(d, |m|);
  }
}
