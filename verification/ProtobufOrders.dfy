/** Decoding records in any order and number: unknown ones between them, fields
    that come twice, unions, arrays packed or not. */
module ProtobufOrders {
  import opened InternalKeys
  import opened Coding
  import opened Inductions
  import opened ProtobufWires
  import opened ProtobufMessages
  import opened ProtobufRecords

// ---------------------------------------------------------------------
  // Any order
  // ---------------------------------------------------------------------

  /** The records that change slot `j`, in their order. */
  function Touching(d: Descriptor, items: seq<Item>, j: nat): (r: seq<Item>)
    requires j < |d.fields|
  {
    if items == [] then []
    else
      var n := |items| - 1;
      Touching(d, items[..n], j) + (if Touches(d, items[n], j) then [items[n]] else [])
  }

  lemma {:induction false} TouchingMembers(d: Descriptor, items: seq<Item>, j: nat, x: Item)
    requires j < |d.fields|
    ensures x in Touching(d, items, j) <==> x in items && Touches(d, x, j)
  {
    if items != [] {
      var n := |items| - 1;
      TouchingMembers(d, items[..n], j, x);
      assert items == items[..n] + [items[n]];
    }
  }

  lemma TouchingOneMore(d: Descriptor, init: seq<Item>, x: Item, j: nat)
    requires j < |d.fields|
    ensures Touching(d, init + [x], j) == Touching(d, init, j) + (if Touches(d, x, j) then [x] else [])
  {
    assert (init + [x])[..|init|] == init;
  }

  /** Slot `j` is what the records that touch it make it. */
  ghost predicate TouchingCounts(d: Descriptor, s: Slot, items: seq<Item>, j: nat)
    requires j < |d.fields|
  {
    && SlotAfterAll(d, s, Touching(d, items, j), j) == SlotAfterAll(d, s, items, j)
    && (SlotFits(d, s, Touching(d, items, j), j) <==> SlotFits(d, s, items, j))
  }

  lemma LastTouches(d: Descriptor, s: Slot, init: seq<Item>, x: Item, j: nat)
    requires j < |d.fields| && TouchingCounts(d, s, init, j)
    ensures TouchingCounts(d, s, init + [x], j)
  {
    TouchingOneMore(d, init, x, j);
    AfterOneMore(d, s, init, x, j);
    if Touches(d, x, j) {
      AfterOneMore(d, s, Touching(d, init, j), x, j);
    } else {
      assert Touching(d, init, j) + [] == Touching(d, init, j);
    }
  }

  lemma OnlyTouchingCount(d: Descriptor, s: Slot, items: seq<Item>, j: nat)
    requires j < |d.fields|
    ensures TouchingCounts(d, s, items, j)
  {
    var p := (a: seq<Item>) => TouchingCounts(d, s, a, j);
    forall a: seq<Item>, x | p(a) ensures p(a + [x]) {
      LastTouches(d, s, a, x, j);
    }
    FromPrefixes(p, items);
  }

  /** The record marks required field number `k`. */
  predicate Marks(d: Descriptor, item: Item, k: nat) {
    && !item.Unknown? && ItemOk(d, item)
    && d.fields[item.i].rule.Required? && RequiredBefore(d, item.i) == k && k < MAX_REQUIRED_FIELDS
  }

  lemma {:induction false} SeenOfRecords(d: Descriptor, seen: set<nat>, items: seq<Item>, k: nat)
    ensures k in SeenAfter(d, seen, items) <==> k in seen || exists n :: 0 <= n < |items| && Marks(d, items[n], k)
  {
    if items != [] {
      var n := |items| - 1;
      SeenOfRecords(d, seen, items[..n], k);
      assert forall i :: 0 <= i < n ==> items[..n][i] == items[i];
    }
  }

  /** Each slot is changed by the same records in the same order. */
  ghost predicate SameRecords(d: Descriptor, a: seq<Item>, b: seq<Item>)
  {
    forall j :: 0 <= j < |d.fields| ==> Touching(d, a, j) == Touching(d, b, j)
  }

  lemma SameMark(d: Descriptor, a: seq<Item>, b: seq<Item>, k: nat)
    requires SameRecords(d, a, b)
    requires exists n :: 0 <= n < |a| && Marks(d, a[n], k)
    ensures exists n :: 0 <= n < |b| && Marks(d, b[n], k)
  {
    var n :| 0 <= n < |a| && Marks(d, a[n], k);
    var x, j := a[n], a[n].i;
    assert x in a;
    TouchingMembers(d, a, j, x);
    assert Touching(d, a, j) == Touching(d, b, j);
    TouchingMembers(d, b, j, x);
    var m :| 0 <= m < |b| && b[m] == x;
  }

  lemma SameOutcome(d: Descriptor, a: seq<Item>, b: seq<Item>, start: seq<Slot>)
    requires SameRecords(d, a, b) && |start| == |d.fields|
    ensures AfterItems(d, start, a) == AfterItems(d, start, b)
    ensures ItemsFit(d, start, a) <==> ItemsFit(d, start, b)
    ensures SeenAfter(d, {}, a) == SeenAfter(d, {}, b)
  {
    forall j | 0 <= j < |start|
      ensures AfterItems(d, start, a)[j] == AfterItems(d, start, b)[j]
      ensures SlotFits(d, start[j], a, j) <==> SlotFits(d, start[j], b, j)
    {
      assert Touching(d, a, j) == Touching(d, b, j);
      OnlyTouchingCount(d, start[j], a, j);
      OnlyTouchingCount(d, start[j], b, j);
    }
    forall k: nat ensures k in SeenAfter(d, {}, a) <==> k in SeenAfter(d, {}, b) {
      SeenOfRecords(d, {}, a, k);
      SeenOfRecords(d, {}, b, k);
      if exists n :: 0 <= n < |a| && Marks(d, a[n], k) {
        SameMark(d, a, b, k);
      } else if exists n :: 0 <= n < |b| && Marks(d, b[n], k) {
        SameMark(d, b, a, k);
      }
    }
  }

  /** Decoding any records that find room: each slot as its own records leave it,
      and a message only if every required field (of the first 64) has a record. */
  lemma RecordsDecode(d: Descriptor, items: seq<Item>, start: seq<Slot>)
    requires Good(d) && Short(ItemsBytes(d, items)) && |start| == |d.fields|
    requires ItemsFit(d, start, items)
    ensures Decode(d, ItemsBytes(d, items).value, start)
         == if RequiredHaveRecords(d, items) then Some(AfterItems(d, start, items)) else None
  {
    AllItemsArrive(d, items, start);
    SeenIsRequired(d, items);
  }

  predicate IsRecordOf(d: Descriptor, item: Item, i: nat) {
    !item.Unknown? && item.i == i && ItemOk(d, item)
  }

  /** Field `i` has a record. */
  ghost predicate HasRecord(d: Descriptor, items: seq<Item>, i: nat)
  {
    exists n :: 0 <= n < |items| && IsRecordOf(d, items[n], i)
  }

  ghost predicate RequiredHaveRecords(d: Descriptor, items: seq<Item>)
  {
    forall i :: 0 <= i < |d.fields| && d.fields[i].rule.Required? && RequiredBefore(d, i) < MAX_REQUIRED_FIELDS ==>
      HasRecord(d, items, i)
  }

  lemma {:induction false} RequiredNumber(d: Descriptor, n: nat, k: nat) returns (i: nat)
    requires n <= |d.fields| && k < RequiredBefore(d, n)
    ensures i < n && d.fields[i].rule.Required? && RequiredBefore(d, i) == k
    decreases n
  {
    if k < RequiredBefore(d, n - 1) {
      i := RequiredNumber(d, n - 1, k);
    } else {
      i := n - 1;
    }
  }

  lemma OneRequiredNumber(d: Descriptor, i: nat, j: nat)
    requires i < |d.fields| && j < |d.fields| && d.fields[i].rule.Required? && d.fields[j].rule.Required?
    requires RequiredBefore(d, i) == RequiredBefore(d, j)
    ensures i == j
  {
    if i < j {
      RequiredIndexGrows(d, i, j);
    } else if j < i {
      RequiredIndexGrows(d, j, i);
    }
  }

  lemma SeenIsRequired(d: Descriptor, items: seq<Item>)
    ensures AllSeen(d, SeenAfter(d, {}, items)) <==> RequiredHaveRecords(d, items)
  {
    if AllSeen(d, SeenAfter(d, {}, items)) {
      forall i | 0 <= i < |d.fields| && d.fields[i].rule.Required? && RequiredBefore(d, i) < MAX_REQUIRED_FIELDS
        ensures HasRecord(d, items, i)
      {
        RequiredIndexGrows(d, i, |d.fields|);
        SeenOfRecords(d, {}, items, RequiredBefore(d, i));
        var n :| 0 <= n < |items| && Marks(d, items[n], RequiredBefore(d, i));
        OneRequiredNumber(d, items[n].i, i);
        assert IsRecordOf(d, items[n], i);
      }
    }
    if RequiredHaveRecords(d, items) {
      forall k | 0 <= k < RequiredBefore(d, |d.fields|) && k < MAX_REQUIRED_FIELDS
        ensures k in SeenAfter(d, {}, items)
      {
        var i := RequiredNumber(d, |d.fields|, k);
        assert HasRecord(d, items, i);
        var n :| 0 <= n < |items| && IsRecordOf(d, items[n], i);
        assert Marks(d, items[n], k);
        SeenOfRecords(d, {}, items, k);
      }
    }
  }

  // ---------------------------------------------------------------------
  // What follows
  // ---------------------------------------------------------------------

  /** The records of an encoded message, those of different fields in any order,
      with records of no field anywhere between them, decode to the same message. */
  lemma AnyOrderDecodes(d: Descriptor, m: seq<Slot>, items: seq<Item>)
    requires Good(d) && Fits(d, m) && Short(ItemsBytes(d, items))
    requires SameRecords(d, items, ItemsOf(d, m, |m|))
    ensures DecodeMessage(d, ItemsBytes(d, items).value) == Some(MergeInto(d, Defaults(d), m))
  {
    DefaultsHaveRoomFor(d, m);
    ReceivingMerges(d, m, Defaults(d));
    SameOutcome(d, items, ItemsOf(d, m, |m|), Defaults(d));
    AllItemsArrive(d, items, Defaults(d));
    MessageIsSeen(d, m, |m|);
    SeenIsAll(d, |m|);
  }

  /** Without the records of no field. */
  function Known(items: seq<Item>): seq<Item> {
    if items == [] then []
    else Known(items[..|items| - 1]) + (if items[|items| - 1].Unknown? then [] else [items[|items| - 1]])
  }

  lemma {:induction false} KnownIsSame(d: Descriptor, items: seq<Item>)
    ensures SameRecords(d, items, Known(items))
  {
    if items != [] {
      var n := |items| - 1;
      KnownIsSame(d, items[..n]);
      assert items == items[..n] + [items[n]];
      forall j | 0 <= j < |d.fields|
        ensures Touching(d, items, j) == Touching(d, Known(items), j)
      {
        LastIsKnown(d, items[..n], items[n], j);
      }
    }
  }

  lemma LastIsKnown(d: Descriptor, init: seq<Item>, x: Item, j: nat)
    requires j < |d.fields|
    requires Touching(d, init, j) == Touching(d, Known(init), j)
    ensures Touching(d, init + [x], j) == Touching(d, Known(init + [x]), j)
  {
    assert (init + [x])[..|init|] == init;
    TouchingOneMore(d, init, x, j);
    if !x.Unknown? {
      TouchingOneMore(d, Known(init), x, j);
    } else {
      assert Known(init) + [] == Known(init);
    }
  }

  /** Records with tags outside the descriptor change nothing, wherever they stand. */
  lemma UnknownRecordsAreSkipped(d: Descriptor, m: seq<Slot>, items: seq<Item>)
    requires Good(d) && Fits(d, m) && Short(ItemsBytes(d, items))
    requires Known(items) == ItemsOf(d, m, |m|)
    ensures DecodeMessage(d, ItemsBytes(d, items).value) == Some(MergeInto(d, Defaults(d), m))
  {
    KnownIsSame(d, items);
    AnyOrderDecodes(d, m, items);
  }

  lemma AfterLast(d: Descriptor, s: Slot, items: seq<Item>, n: nat, j: nat)
    requires n < |items| && j < |d.fields|
    requires forall k :: n < k < |items| ==> !Touches(d, items[k], j)
    ensures SlotAfterAll(d, s, items, j) == SlotAfter(d, SlotAfterAll(d, s, items[..n], j), items[n], j)
  {
    var later := SplitAfter(items, n);
    AfterAppend(d, s, items[..n + 1], later, j);
    Untouched(d, SlotAfterAll(d, s, items[..n + 1], j), later, j);
  }

  lemma SplitAfter<T>(items: seq<T>, n: nat) returns (later: seq<T>)
    requires n < |items|
    ensures items == items[..n + 1] + later && items[..n + 1][..n] == items[..n]
    ensures forall k :: 0 <= k < |later| ==> later[k] == items[n + 1 + k]
  {
    later := items[n + 1..];
  }

  /** Of several records of a scalar field the last wins. */
  lemma LastOneWins(d: Descriptor, s: Slot, items: seq<Item>, n: nat, j: nat, v: Val)
    requires n < |items| && j < |d.fields| && items[n] == Value(j, v) && FitsVal(d.fields[j].kind, v)
    requires !d.fields[j].kind.Message? && !d.fields[j].rule.Repeated? && !d.fields[j].rule.OneOf?
    requires forall k :: n < k < |items| ==> !Touches(d, items[k], j)
    ensures SlotAfterAll(d, s, items, j) == if d.fields[j].rule.Optional? then Maybe(true, v) else One(v)
  {
    AfterLast(d, s, items, n, j);
  }

  /** Of several members of a union the last is chosen, decoded afresh; the others hold nothing. */
  lemma LastMemberIsChosen(d: Descriptor, slots: seq<Slot>, items: seq<Item>, n: nat, j: nat, v: Val)
    requires n < |items| && j < |d.fields| == |slots| && items[n] == Value(j, v) && FitsVal(d.fields[j].kind, v)
    requires d.fields[j].rule.OneOf? && forall k :: n < k < |items| ==> !Touches(d, items[k], j)
    ensures ItemOk(d, items[n])
    ensures AfterItems(d, slots, items)[j]
         == Maybe(true, Merged(d.fields[j].kind, DefaultVal(d.fields[j].kind, d.fields[j].default), v))
    ensures forall i :: 0 <= i < |slots| && Siblings(d, i, j) ==>
      AfterItems(d, slots, items)[i] == DefaultSlot(d.fields[i])
  {
    assert ItemOk(d, items[n]);
    AfterLast(d, slots[j], items, n, j);
    forall i | 0 <= i < |slots| && Siblings(d, i, j)
      ensures AfterItems(d, slots, items)[i] == DefaultSlot(d.fields[i])
    {
      forall k | n < k < |items| ensures !Touches(d, items[k], i) {
        assert !Touches(d, items[k], j);
      }
      AfterLast(d, slots[i], items, n, i);
    }
  }

  /** Field `m` of a message on top of slot `s`, whether it is there or not. */
  function Over(f: Field, s: Slot, m: Slot): Slot
    requires FitsSlot(f, m)
  {
    if IsPresent(f, m) then MergedSlot(f, s, m) else s
  }

  /** Two messages on top of `start` are merged field by field: later scalars
      win, arrays are joined. */
  lemma TwoMessagesMerge(d: Descriptor, start: seq<Slot>, a: seq<Slot>, b: seq<Slot>, x: nat)
    requires Fits(d, a) && Fits(d, b) && |start| == |d.fields| && x < |d.fields| && !d.fields[x].rule.OneOf?
    ensures FitsSlot(d.fields[x], a[x]) && FitsSlot(d.fields[x], b[x])
    ensures MergeInto(d, MergeInto(d, start, a), b)[x] == Over(d.fields[x], Over(d.fields[x], start[x], a[x]), b[x])
  {
    assert !Displaced(d, a, |a|, x) && !Displaced(d, b, |b|, x);
  }

  /** A submessage that comes twice is merged. */
  lemma SubmessagesMerge(d: Descriptor, s: Slot, j: nat, a: Val, b: Val)
    requires j < |d.fields| && d.fields[j].kind.Message? && FitsVal(d.fields[j].kind, a) && FitsVal(d.fields[j].kind, b)
    requires d.fields[j].rule.Required? || d.fields[j].rule.Singular? || d.fields[j].rule.Optional?
    ensures var inner := d.fields[j].kind.descriptor;
      var both := Sub(MergeInto(inner, MergeInto(inner, SlotsOf(inner, Current(d.fields[j], s)), a.slots), b.slots));
      SlotAfterAll(d, s, [Value(j, a), Value(j, b)], j)
      == if d.fields[j].rule.Optional? then Maybe(true, both) else One(both)
  {
    AfterSingle(d, s, Value(j, a), j);
    AfterOneMore(d, s, [Value(j, a)], Value(j, b), j);
    assert [Value(j, a), Value(j, b)] == [Value(j, a)] + [Value(j, b)];
  }

  /** Array items that come one record each are those of a packed array. */
  lemma UnpackedIsPacked(d: Descriptor, s: Slot, i: nat, vs: seq<Val>)
    requires ItemOk(d, Packed(i, vs)) && vs != []
    ensures SlotAfterAll(d, s, ValuesOf(i, vs), i) == SlotAfter(d, s, Packed(i, vs), i)
  {
    ValuesAppend(d, s, i, vs);
    assert MergedVals(d.fields[i].kind, d.fields[i].default, vs) == vs;
  }

  // ---------------------------------------------------------------------
  // Too many items
  // ---------------------------------------------------------------------

  /** The array is encoded, and decoding it runs over. */
  predicate RunsOver(k: Kind, vs: seq<Val>, done: seq<Val>, max: nat)
    requires Packable(k)
  {
    EncodeVals([], k, vs).Some? && DecodePacked(k, EncodeVals([], k, vs).value, done, max) == None
  }

  lemma {:induction false} AllEncode(k: Kind, vs: seq<Val>)
    requires Packable(k) && GoodKind(k) && forall i :: 0 <= i < |vs| ==> FitsVal(k, vs[i])
    ensures EncodeVals([], k, vs).Some?
  {
    if vs != [] {
      NumberRoundTrip(k, vs[0], []);
      AllEncode(k, vs[1..]);
    }
  }

  lemma FirstOfArray(k: Kind, vs: seq<Val>, first: Bytes, more: Bytes)
    requires vs != [] && EncodeVal(k, vs[0]) == Some(first) && EncodeVals([], k, vs[1..]) == Some(more)
    ensures EncodeVals([], k, vs) == Some(first + more)
  {
    assert [] + first + more == first + more;
  }

  lemma RunsOverLater(k: Kind, vs: seq<Val>, done: seq<Val>, max: nat)
    requires Packable(k) && GoodKind(k) && vs != [] && forall i :: 0 <= i < |vs| ==> FitsVal(k, vs[i])
    requires |done| >= max || RunsOver(k, vs[1..], done + [vs[0]], max)
    ensures RunsOver(k, vs, done, max)
  {
    AllEncode(k, vs[1..]);
    var more := EncodeVals([], k, vs[1..]).value;
    NumberRoundTrip(k, vs[0], more);
    var first := EncodeVal(k, vs[0]).value;
    FirstOfArray(k, vs, first, more);
    NonemptyNumber(k, vs[0]);
    if |done| >= max {
      FullArray(k, first + more, done, max);
    } else {
      PackedStep(k, first, more, vs, done, max);
    }
  }

  lemma {:induction false} PackedOverflows(k: Kind, vs: seq<Val>, done: seq<Val>, max: nat)
    requires Packable(k) && GoodKind(k) && |done| + |vs| > max && vs != []
    requires forall i :: 0 <= i < |vs| ==> FitsVal(k, vs[i])
    ensures RunsOver(k, vs, done, max)
    decreases |vs|
  {
    if |done| < max {
      PackedOverflows(k, vs[1..], done + [vs[0]], max);
    }
    RunsOverLater(k, vs, done, max);
  }

  lemma FullArray(k: Kind, b: Bytes, done: seq<Val>, max: nat)
    requires Packable(k) && b != [] && |done| >= max
    ensures DecodePacked(k, b, done, max) == None
  {
  }

  lemma NonemptyNumber(k: Kind, v: Val)
    requires Packable(k) && EncodeVal(k, v).Some?
    ensures EncodeVal(k, v).value != []
  {
  }

  lemma UnfoldFailure(d: Descriptor, b: Bytes, afterTag: Bytes, temp: Word32, i: nat, st: Progress)
    requires |d.fields| == |st.slots| && i < |d.fields|
    requires b != [] && DecodeVarint32(b) == Some(Decoded(temp, afterTag)) && temp != 0 && Find(d, temp / 8) == Some(i)
    requires DecodeSlot(d.fields[i], temp % 8, afterTag, st.slots[i]) == None
    ensures DecodeFields(d, b, st) == None
  {
  }

  lemma RecordFails(d: Descriptor, i: nat, wireType: nat, payload: Bytes, rest: Bytes, st: Progress)
    requires Good(d) && i < |d.fields| == |st.slots| && wireType < 8
    requires DecodeSlot(d.fields[i], wireType, payload + rest, st.slots[i]) == None
    ensures DecodeFields(d, (TagBytes(d.fields[i].tag, wireType) + payload) + rest, st) == None
  {
    var tag := TagBytes(d.fields[i].tag, wireType);
    Regroup(tag, payload, rest);
    TagRoundTrip(d.fields[i].tag, wireType, payload + rest);
    FindsField(d, i);
    UnfoldFailure(d, tag + (payload + rest), payload + rest, d.fields[i].tag * 8 + wireType, i, st);
  }

  /** An item too many is an error, packed or not. */
  lemma OverflowFails(d: Descriptor, item: Item, rest: Bytes, st: Progress)
    requires Good(d) && ItemOk(d, item) && Short(ItemBytes(d, item)) && |st.slots| == |d.fields|
    requires !item.Unknown? && d.fields[item.i].rule.Repeated? && !FindsRoom(d, st.slots, item)
    requires item.Packed? ==> item.vs != []
    ensures DecodeFields(d, ItemBytes(d, item).value + rest, st) == None
  {
    var f := d.fields[item.i];
    match item
    case Value(i, v) => RecordFails(d, i, WireType(f.kind), EncodeVal(f.kind, v).value, rest, st);
    case Packed(i, vs) =>
      var body := EncodeVals([], f.kind, vs).value;
      PackedOverflows(f.kind, vs, ItemsIn(st.slots[i]), f.rule.max);
      SubstreamRoundTrip(body, rest);
      RecordFails(d, i, WT_STRING, EncodeVarint(|body|) + body, rest, st);
  }
}
