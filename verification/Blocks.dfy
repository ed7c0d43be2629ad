/** Prefix-compressed blocks with restart points: the builder, and an iterator
    that refines a cursor over the list of pairs that was added. */
module Blocks {
  import opened InternalKeys
  import opened Coding
  import opened Cursors

  datatype Pair = Pair(key: Bytes, value: Bytes)

  /** A comparator, as the rank of each byte string: every total preorder of
      the (countably many) byte strings is an order of real ranks. */
  type Rank = Bytes -> real

  ghost predicate Ascending(rank: Rank, pairs: seq<Pair>) {
    forall i, j :: 0 <= i < j < |pairs| ==> rank(pairs[i].key) < rank(pairs[j].key)
  }

  // ---------------------------------------------------------------------
  // One entry
  // ---------------------------------------------------------------------

  function EncodeEntry(shared: nat, pair: Pair): (r: Bytes)
    requires shared <= |pair.key| < WORD32 && |pair.value| < WORD32
    ensures |r| >= 3
  {
    EntryHeader(shared, |pair.key| - shared, |pair.value|) + pair.key[shared..] + pair.value
  }

  function EntryHeader(shared: Word32, nonShared: Word32, valueLength: Word32): (r: Bytes)
    ensures |r| >= 3
  {
    EncodeVarint32(shared) + EncodeVarint32(nonShared) + EncodeVarint32(valueLength)
  }

  /** The three lengths in front of an entry, and the size of their encoding. */
  datatype Lengths = Lengths(shared: Word32, nonShared: Word32, valueLength: Word32, size: nat)

  function ThreeVarints(b: Bytes): Option<Lengths> {
    match GetVarint32(b)
    case None => None
    case Some(Decoded(shared, rest)) =>
      match GetVarint32(rest)
      case None => None
      case Some(Decoded(nonShared, rest')) =>
        match GetVarint32(rest')
        case None => None
        case Some(Decoded(valueLength, rest'')) =>
          if |rest''| <= |b| then Some(Lengths(shared, nonShared, valueLength, |b| - |rest''|)) else None
  }

  /** `DecodeEntry`: a fast path when all three lengths take one byte.  The sum
      of the lengths is a 32-bit one. */
  function DecodeEntry(b: Bytes): Option<Lengths> {
    if |b| < 3 then None
    else
      var lengths :=
        if b[0] < 128 && b[1] < 128 && b[2] < 128 then Some(Lengths(b[0], b[1], b[2], 3))
        else ThreeVarints(b);
      if lengths.None? then None
      else if |b| - lengths.value.size < (lengths.value.nonShared + lengths.value.valueLength) % WORD32 then None
      else lengths
  }

  /** The fast path decodes what the general path would. */
  lemma FastPathIsGeneral(b: Bytes)
    requires |b| >= 3 && b[0] < 128 && b[1] < 128 && b[2] < 128
    ensures ThreeVarints(b) == Some(Lengths(b[0], b[1], b[2], 3))
  {
    assert GetVarint32(b) == Some(Decoded(b[0], b[1..]));
    assert GetVarint32(b[1..]) == Some(Decoded(b[1], b[1..][1..]));
    assert b[1..][1..] == b[2..];
    assert GetVarint32(b[2..]) == Some(Decoded(b[2], b[2..][1..]));
  }

  lemma FourParts(a: Bytes, b: Bytes, c: Bytes, d: Bytes)
    ensures (a + b + c) + d == a + (b + (c + d))
  {
  }

  lemma ThreeVarintsRoundTrip(shared: Word32, nonShared: Word32, valueLength: Word32, rest: Bytes)
    ensures var header := EntryHeader(shared, nonShared, valueLength);
      ThreeVarints(header + rest) == Some(Lengths(shared, nonShared, valueLength, |header|))
  {
    var a, b, c := EncodeVarint32(shared), EncodeVarint32(nonShared), EncodeVarint32(valueLength);
    FourParts(a, b, c, rest);
    Varint32RoundTrip(shared, b + (c + rest));
    Varint32RoundTrip(nonShared, c + rest);
    Varint32RoundTrip(valueLength, rest);
  }

  /** Decoding an encoded entry gives its lengths back. */
  lemma EntryRoundTrip(shared: nat, pair: Pair, tail: Bytes)
    requires shared <= |pair.key| && |pair.key| + |pair.value| < WORD32
    ensures var nonShared := |pair.key| - shared;
      var size := |EntryHeader(shared, nonShared, |pair.value|)|;
      DecodeEntry(EncodeEntry(shared, pair) + tail) == Some(Lengths(shared, nonShared, |pair.value|, size))
  {
    var b := EncodeEntry(shared, pair) + tail;
    var header := EntryHeader(shared, |pair.key| - shared, |pair.value|);
    var rest := pair.key[shared..] + pair.value + tail;
    RegroupEntry(header, pair.key[shared..], pair.value, tail);
    ThreeVarintsRoundTrip(shared, |pair.key| - shared, |pair.value|, rest);
    DecodeIsGeneral(b, Lengths(shared, |pair.key| - shared, |pair.value|, |header|));
  }

  lemma RegroupEntry(a: Bytes, b: Bytes, c: Bytes, d: Bytes)
    ensures (a + b + c) + d == a + (b + c + d)
  {
  }

  lemma DecodeIsGeneral(b: Bytes, lengths: Lengths)
    requires |b| >= 3 && ThreeVarints(b) == Some(lengths)
    requires lengths.nonShared + lengths.valueLength < WORD32
    requires lengths.size + lengths.nonShared + lengths.valueLength <= |b|
    ensures DecodeEntry(b) == Some(lengths)
  {
    if b[0] < 128 && b[1] < 128 && b[2] < 128 {
      FastPathIsGeneral(b);
    }
    SmallModulo(lengths.nonShared + lengths.valueLength, WORD32);
  }

  // ---------------------------------------------------------------------
  // The layout of a block
  // ---------------------------------------------------------------------

  /** What a block holds: the pairs, how much of each key is shared with the one
      before, where each entry starts (and the last one ends), and which entries
      are restart points. */
  datatype Layout = Layout(pairs: seq<Pair>, shared: seq<nat>, offsets: seq<nat>, restarts: seq<nat>) {
    predicate WellFormed() {
      && |shared| == |pairs|
      && |offsets| == |pairs| + 1
      && offsets[0] == 0
      && (forall i, j :: 0 <= i < j < |offsets| ==> offsets[i] < offsets[j])
      && (forall i :: 0 <= i < |pairs| ==> Shares(i))
      && HasRestarts()
    }

    predicate HasRestarts()
      requires |shared| == |pairs|
    {
      && restarts != []
      && restarts[0] == 0
      && (forall j, k :: 0 <= j < k < |restarts| ==> restarts[j] < restarts[k] < |pairs|)
      && (forall j :: 0 <= j < |restarts| && restarts[j] < |pairs| ==> shared[restarts[j]] == 0)
    }

    function KeyBefore(i: nat): Bytes
      requires i <= |pairs|
    {
      if i == 0 then [] else pairs[i - 1].key
    }

    predicate Shares(i: nat)
      requires i < |pairs| == |shared|
    {
      && |pairs[i].key| + |pairs[i].value| < WORD32
      && shared[i] <= |pairs[i].key|
      && pairs[i].key[..shared[i]] <= KeyBefore(i)
    }

    function End(): nat
      requires offsets != []
    {
      offsets[|offsets| - 1]
    }

    /** Entry `i` is stored at its offset. */
    predicate EntryAt(data: Bytes, i: nat)
      requires WellFormed() && i < |pairs|
    {
      && offsets[i + 1] <= |data|
      && offsets[i] < offsets[i + 1]
      && Shares(i)
      && data[offsets[i]..offsets[i + 1]] == EncodeEntry(shared[i], pairs[i])
    }

    predicate In(data: Bytes) {
      && WellFormed()
      && End() <= |data|
      && forall i :: 0 <= i < |pairs| ==> EntryAt(data, i)
    }

    function RestartOffset(j: nat): nat
      requires WellFormed() && j < |restarts|
    {
      offsets[restarts[j]]
    }
  }

  /** `data` is a finished block of that layout: entries, the offsets of the
      restart points, and their number. */
  predicate IsBlock(data: Bytes, layout: Layout) {
    && layout.In(data)
    && |data| == layout.End() + 4 * (|layout.restarts| + 1) < WORD32
    && (forall j :: 0 <= j < |layout.restarts| ==> RestartAt(data, layout, j))
    && DecodeFixed32(data[|data| - 4..]) == |layout.restarts|
  }

  predicate RestartAt(data: Bytes, layout: Layout, j: nat)
    requires layout.WellFormed() && j < |layout.restarts|
    requires |data| == layout.End() + 4 * (|layout.restarts| + 1)
  {
    DecodeFixed32(data[layout.End() + 4 * j..]) == layout.RestartOffset(j)
  }

  // ---------------------------------------------------------------------
  // The builder
  // ---------------------------------------------------------------------

  /** The longest common prefix of `a` and `b`. */
  function CommonPrefix(a: Bytes, b: Bytes): (n: nat)
    ensures n <= |a| && n <= |b| && a[..n] == b[..n]
    ensures n < |a| && n < |b| ==> a[n] != b[n]
  {
    if a == [] || b == [] || a[0] != b[0] then 0 else 1 + CommonPrefix(a[1..], b[1..])
  }

  method SharedLength(a: Bytes, b: Bytes) returns (shared: nat)
    ensures shared == CommonPrefix(a, b)
  {
    var minLength := if |a| < |b| then |a| else |b|;
    shared := 0;
    while shared < minLength && a[shared] == b[shared]
      invariant shared <= minLength && a[..shared] == b[..shared]
    {
      shared := shared + 1;
    }
    CommonPrefixIsUnique(a, b, shared);
  }

  lemma CommonPrefixIsUnique(a: Bytes, b: Bytes, n: nat)
    requires n <= |a| && n <= |b| && a[..n] == b[..n]
    requires n < |a| && n < |b| ==> a[n] != b[n]
    ensures CommonPrefix(a, b) == n
  {
    var m := CommonPrefix(a, b);
    assert forall k :: 0 <= k < n ==> a[k] == a[..n][k] == b[k];
    assert forall k :: 0 <= k < m ==> a[k] == a[..m][k] == b[k];
  }

  predicate Short(pair: Pair) {
    |pair.key| + |pair.value| < WORD32
  }

  predicate AllShort(pairs: seq<Pair>) {
    forall i :: 0 <= i < |pairs| ==> Short(pairs[i])
  }

  /** The layout the builder gives a list of pairs: each key shares what it can
      with the one before, except at every `interval`th entry. */
  function LayoutOf(pairs: seq<Pair>, interval: nat): (r: Layout)
    requires AllShort(pairs)
    ensures r.pairs == pairs && r.offsets != [] && r.restarts != []
  {
    if pairs == [] then Layout([], [], [0], [0])
    else
      var n := |pairs| - 1;
      ShortInit(pairs);
      NextLayout(LayoutOf(pairs[..n], interval), pairs[n], interval)
  }

  lemma ShortInit(pairs: seq<Pair>)
    requires pairs != [] && AllShort(pairs)
    ensures var n := |pairs| - 1;
      AllShort(pairs[..n]) && Short(pairs[n]) && pairs[..n] + [pairs[n]] == pairs
  {
  }

  function NextLayout(layout: Layout, pair: Pair, interval: nat): (r: Layout)
    requires layout.offsets != [] && layout.restarts != [] && Short(pair)
    ensures r.pairs == layout.pairs + [pair] && r.offsets != [] && r.restarts != []
  {
    var n := |layout.pairs|;
    if n - layout.restarts[|layout.restarts| - 1] < interval then
      Extended(layout, pair, CommonPrefix(layout.KeyBefore(n), pair.key), layout.restarts)
    else
      Extended(layout, pair, 0, layout.restarts + [n])
  }

  function BlockSize(layout: Layout): nat
    requires layout.offsets != []
  {
    layout.End() + 4 * (|layout.restarts| + 1)
  }

  datatype BuilderState = BuilderState(buffer: Bytes, restarts: seq<Word32>, counter: nat, lastKey: Bytes)

  const EMPTY: BuilderState := BuilderState([], [0], 0, [])

  /** What `Add` does.  Restart offsets are kept in 32 bits. */
  function AddTo(st: BuilderState, pair: Pair, interval: nat): BuilderState
    requires Short(pair)
  {
    if st.counter < interval then
      BuilderState(st.buffer + EncodeEntry(CommonPrefix(st.lastKey, pair.key), pair), st.restarts, st.counter + 1,
        pair.key)
    else
      BuilderState(st.buffer + EncodeEntry(0, pair), st.restarts + [|st.buffer| % WORD32], 1, pair.key)
  }

  function StateOf(pairs: seq<Pair>, interval: nat): BuilderState
    requires AllShort(pairs)
  {
    if pairs == [] then EMPTY
    else AddTo(StateOf(pairs[..|pairs| - 1], interval), pairs[|pairs| - 1], interval)
  }

  function Finished(st: BuilderState): Bytes {
    st.buffer + FixedList(st.restarts) + EncodeFixed32(|st.restarts| % WORD32)
  }

  class BlockBuilder {
    const interval: nat
    var buffer: Bytes
    var restarts: seq<Word32>
    var counter: nat
    var lastKey: Bytes

    ghost function State(): BuilderState
      reads this
    {
      BuilderState(buffer, restarts, counter, lastKey)
    }

    constructor (interval: nat)
      requires interval >= 1
      ensures State() == EMPTY && this.interval == interval
    {
      this.interval := interval;
      this.buffer, this.restarts, this.counter, this.lastKey := [], [0], 0, [];
    }

    method Reset()
      modifies this
      ensures State() == EMPTY
    {
      buffer, restarts, counter, lastKey := [], [0], 0, [];
    }

    function CurrentSizeEstimate(): nat
      reads this
    {
      |buffer| + |restarts| * 4 + 4
    }

    method Add(pair: Pair)
      requires Short(pair)
      modifies this
      ensures State() == AddTo(old(State()), pair, interval)
    {
      var shared := 0;
      if counter < interval {
        shared := SharedLength(lastKey, pair.key);
      } else {
        restarts := restarts + [|buffer| % WORD32];
        counter := 0;
      }
      buffer := buffer + EncodeEntry(shared, pair);
      lastKey := lastKey[..shared] + pair.key[shared..];
      counter := counter + 1;
    }

    method Finish() returns (block: Bytes)
      modifies this`buffer
      ensures block == buffer == Finished(old(State()))
      ensures |block| == old(CurrentSizeEstimate())
    {
      ghost var entries := buffer;
      var i := 0;
      while i < |restarts|
        invariant i <= |restarts|
        invariant buffer == entries + FixedList(restarts[..i])
      {
        assert restarts[..i + 1][..i] == restarts[..i];
        buffer := buffer + EncodeFixed32(restarts[i]);
        i := i + 1;
      }
      assert restarts[..i] == restarts;
      buffer := buffer + EncodeFixed32(|restarts| % WORD32);
      block := buffer;
    }
  }

  /** Every key that is not at a restart point shares all it can with the one before. */
  predicate SharesAll(layout: Layout, i: nat)
    requires layout.WellFormed() && i < |layout.pairs|
  {
    var before, key, shared := layout.KeyBefore(i), layout.pairs[i].key, layout.shared[i];
    shared < |before| && shared < |key| ==> before[shared] != key[shared]
  }

  ghost predicate SharesAllBut(layout: Layout) {
    layout.WellFormed() ==>
      forall i :: 0 <= i < |layout.pairs| && i !in layout.restarts ==> SharesAll(layout, i)
  }

  lemma NextSharesAll(layout: Layout, pair: Pair, interval: nat)
    requires layout.WellFormed() && SharesAllBut(layout) && Short(pair)
    ensures SharesAllBut(NextLayout(layout, pair, interval))
  {
    var next, n := NextLayout(layout, pair, interval), |layout.pairs|;
    if next.WellFormed() {
      forall i | 0 <= i < |next.pairs| && i !in next.restarts ensures SharesAll(next, i) {
        if i < n {
          assert i !in layout.restarts && SharesAll(layout, i);
        } else {
          assert n in layout.restarts + [n];
        }
      }
    }
  }

  /** Prefix compression is as good as it can be. */
  lemma {:induction false} SharingIsLongest(pairs: seq<Pair>, interval: nat)
    requires interval >= 1 && AllShort(pairs) && BlockSize(LayoutOf(pairs, interval)) < WORD32
    ensures LayoutOf(pairs, interval).WellFormed() && SharesAllBut(LayoutOf(pairs, interval))
  {
    StateIsDescribed(pairs, interval);
    if pairs != [] {
      var n := |pairs| - 1;
      SharingIsLongest(pairs[..n], interval);
      NextSharesAll(LayoutOf(pairs[..n], interval), pairs[n], interval);
    }
  }

  /** The builder's state describes a layout: a restart point every `interval`
      entries, and `counter` entries since the last one. */
  ghost predicate Describes(layout: Layout, interval: nat, st: BuilderState) {
    && layout.In(st.buffer)
    && layout.End() == |st.buffer|
    && RestartsMatch(layout, st.restarts)
    && st.lastKey == layout.KeyBefore(|layout.pairs|)
    && st.counter <= interval
    && layout.restarts[|layout.restarts| - 1] + st.counter == |layout.pairs|
    && EveryInterval(layout.restarts, interval)
  }

  lemma AddKeepsDescribes(layout: Layout, interval: nat, st: BuilderState, pair: Pair)
    requires interval >= 1 && Describes(layout, interval, st) && Short(pair) && |st.buffer| < WORD32
    ensures Describes(NextLayout(layout, pair, interval), interval, AddTo(st, pair, interval))
  {
    if st.counter < interval {
      SharingKeepsDescribes(layout, interval, st, pair);
    } else {
      SmallModulo(|st.buffer|, WORD32);
      RestartKeepsDescribes(layout, interval, st, pair);
    }
  }

  lemma SharingKeepsDescribes(layout: Layout, interval: nat, st: BuilderState, pair: Pair)
    requires Describes(layout, interval, st) && st.counter < interval && Short(pair)
    ensures var shared := CommonPrefix(st.lastKey, pair.key);
      Describes(Extended(layout, pair, shared, layout.restarts), interval,
                BuilderState(st.buffer + EncodeEntry(shared, pair), st.restarts, st.counter + 1, pair.key))
  {
    ExtendLayout(layout, st.buffer, pair, CommonPrefix(st.lastKey, pair.key), layout.restarts);
  }

  lemma RestartKeepsDescribes(layout: Layout, interval: nat, st: BuilderState, pair: Pair)
    requires Describes(layout, interval, st) && st.counter == interval >= 1 && Short(pair) && |st.buffer| < WORD32
    ensures Describes(Extended(layout, pair, 0, layout.restarts + [|layout.pairs|]), interval,
                      BuilderState(st.buffer + EncodeEntry(0, pair), st.restarts + [|st.buffer|], 1, pair.key))
  {
    ExtendLayout(layout, st.buffer, pair, 0, layout.restarts + [|layout.pairs|]);
    IntervalGrows(layout.restarts, |layout.pairs|, interval);
    RestartsStillMatch(layout, pair, st.restarts);
  }

  /** A new restart point is the end of what there was. */
  lemma RestartsStillMatch(layout: Layout, pair: Pair, restarts: seq<Word32>)
    requires RestartsMatch(layout, restarts) && Short(pair) && layout.End() < WORD32
    requires Extended(layout, pair, 0, layout.restarts + [|layout.pairs|]).WellFormed()
    ensures RestartsMatch(Extended(layout, pair, 0, layout.restarts + [|layout.pairs|]), restarts + [layout.End()])
  {
    var layout' := Extended(layout, pair, 0, layout.restarts + [|layout.pairs|]);
    forall j | 0 <= j < |layout'.restarts| ensures (restarts + [layout.End()])[j] == layout'.RestartOffset(j) {
      if j < |layout.restarts| {
        assert layout'.RestartOffset(j) == layout.RestartOffset(j);
      }
    }
  }

  lemma IntervalGrows(restarts: seq<nat>, next: nat, interval: nat)
    requires restarts != [] && EveryInterval(restarts, interval) && next == restarts[|restarts| - 1] + interval
    ensures EveryInterval(restarts + [next], interval)
  {
  }

  /** The builder's state after adding a list is what its layout says. */
  lemma {:induction false} StateIsDescribed(pairs: seq<Pair>, interval: nat)
    requires interval >= 1 && AllShort(pairs) && BlockSize(LayoutOf(pairs, interval)) < WORD32
    ensures Describes(LayoutOf(pairs, interval), interval, StateOf(pairs, interval))
  {
    if pairs != [] {
      var n := |pairs| - 1;
      StateIsDescribed(pairs[..n], interval);
      AddKeepsDescribes(LayoutOf(pairs[..n], interval), interval, StateOf(pairs[..n], interval), pairs[n]);
    }
  }

  /** A restart point every `interval` entries. */
  predicate EveryInterval(restarts: seq<nat>, interval: nat) {
    forall j :: 0 < j < |restarts| ==> restarts[j] == restarts[j - 1] + interval
  }

  predicate RestartsMatch(layout: Layout, restarts: seq<Word32>)
  {
    && layout.WellFormed()
    && |restarts| == |layout.restarts|
    && forall j :: 0 <= j < |restarts| ==> restarts[j] == layout.RestartOffset(j)
  }

  function Extended(layout: Layout, pair: Pair, shared: nat, restarts: seq<nat>): Layout
    requires layout.offsets != [] && shared <= |pair.key| < WORD32 && |pair.value| < WORD32
  {
    Layout(layout.pairs + [pair], layout.shared + [shared],
           layout.offsets + [layout.End() + |EncodeEntry(shared, pair)|], restarts)
  }

  lemma ExtendLayout(layout: Layout, buffer: Bytes, pair: Pair, shared: nat, restarts: seq<nat>)
    requires layout.In(buffer) && layout.End() == |buffer|
    requires |pair.key| + |pair.value| < WORD32
    requires shared <= |pair.key| && pair.key[..shared] <= layout.KeyBefore(|layout.pairs|)
    requires restarts == layout.restarts || (restarts == layout.restarts + [|layout.pairs|] && shared == 0)
    requires layout.pairs == [] ==> restarts == layout.restarts
    ensures var layout' := Extended(layout, pair, shared, restarts);
      layout'.In(buffer + EncodeEntry(shared, pair)) && layout'.End() == |buffer + EncodeEntry(shared, pair)|
  {
    var layout' := Extended(layout, pair, shared, restarts);
    var data := buffer + EncodeEntry(shared, pair);
    ExtendedWellFormed(layout, pair, shared, restarts);
    InLonger(layout, buffer, data);
    forall i | 0 <= i < |layout'.pairs| ensures layout'.EntryAt(data, i) {
      if i < |layout.pairs| {
        assert layout.EntryAt(data, i);
      } else {
        NewEntryAt(layout, buffer, pair, shared, restarts);
      }
    }
  }

  lemma NewEntryAt(layout: Layout, buffer: Bytes, pair: Pair, shared: nat, restarts: seq<nat>)
    requires layout.WellFormed() && layout.End() == |buffer| && Short(pair) && shared <= |pair.key|
    requires Extended(layout, pair, shared, restarts).WellFormed()
    ensures Extended(layout, pair, shared, restarts).EntryAt(buffer + EncodeEntry(shared, pair), |layout.pairs|)
  {
    var data := buffer + EncodeEntry(shared, pair);
    assert data[|buffer|..|data|] == EncodeEntry(shared, pair);
  }

  lemma ExtendedWellFormed(layout: Layout, pair: Pair, shared: nat, restarts: seq<nat>)
    requires layout.WellFormed()
    requires |pair.key| + |pair.value| < WORD32
    requires shared <= |pair.key| && pair.key[..shared] <= layout.KeyBefore(|layout.pairs|)
    requires restarts == layout.restarts || (restarts == layout.restarts + [|layout.pairs|] && shared == 0)
    requires layout.pairs == [] ==> restarts == layout.restarts
    ensures Extended(layout, pair, shared, restarts).WellFormed()
  {
    var layout' := Extended(layout, pair, shared, restarts);
    ExtendedHasRestarts(layout, pair, shared, restarts);
    forall i | 0 <= i < |layout'.pairs| ensures layout'.Shares(i) {
      if i < |layout.pairs| {
        assert layout.Shares(i);
      }
    }
  }

  lemma ExtendedHasRestarts(layout: Layout, pair: Pair, shared: nat, restarts: seq<nat>)
    requires |layout.shared| == |layout.pairs| && layout.HasRestarts() && layout.offsets != []
    requires shared <= |pair.key| < WORD32 && |pair.value| < WORD32
    requires restarts == layout.restarts || (restarts == layout.restarts + [|layout.pairs|] && shared == 0)
    requires layout.pairs == [] ==> restarts == layout.restarts && shared == 0
    ensures Extended(layout, pair, shared, restarts).HasRestarts()
  {
  }

  lemma FinishedIsBlock(layout: Layout, entries: Bytes, restarts: seq<Word32>)
    requires layout.In(entries) && layout.End() == |entries| && RestartsMatch(layout, restarts)
    requires |entries| + 4 * |restarts| + 4 < WORD32
    ensures IsBlock(entries + FixedList(restarts) + EncodeFixed32(|restarts|), layout)
  {
    FrontOfSum(entries, FixedList(restarts), EncodeFixed32(|restarts|));
    InLonger(layout, entries, entries + FixedList(restarts) + EncodeFixed32(|restarts|));
    RestartsAreStored(layout, entries, restarts);
    CountAt(entries + FixedList(restarts), |restarts|);
  }

  lemma FrontOfSum(a: Bytes, b: Bytes, c: Bytes)
    ensures a <= a + b + c
  {
  }

  lemma RestartsAreStored(layout: Layout, entries: Bytes, restarts: seq<Word32>)
    requires layout.WellFormed() && layout.End() == |entries| && RestartsMatch(layout, restarts) && |restarts| < WORD32
    ensures var block := entries + FixedList(restarts) + EncodeFixed32(|restarts|);
      |block| == layout.End() + 4 * (|restarts| + 1)
      && forall j :: 0 <= j < |layout.restarts| ==> RestartAt(block, layout, j)
  {
    var block := entries + FixedList(restarts) + EncodeFixed32(|restarts|);
    forall j | 0 <= j < |layout.restarts| ensures RestartAt(block, layout, j) {
      TrailerAt(entries, restarts, j);
    }
  }

  lemma InLonger(layout: Layout, data: Bytes, longer: Bytes)
    requires layout.In(data) && layout.End() == |data| && data <= longer
    ensures layout.In(longer)
  {
    forall i | 0 <= i < |layout.pairs| ensures layout.EntryAt(longer, i) {
      assert layout.EntryAt(data, i);
      assert longer[layout.offsets[i]..layout.offsets[i + 1]] == data[layout.offsets[i]..layout.offsets[i + 1]];
    }
  }

  lemma TrailerAt(entries: Bytes, restarts: seq<Word32>, j: nat)
    requires j < |restarts| < WORD32
    ensures var block := entries + FixedList(restarts) + EncodeFixed32(|restarts|);
      DecodeFixed32(block[|entries| + 4 * j..]) == restarts[j]
  {
    SkipFront(entries, FixedList(restarts), EncodeFixed32(|restarts|), 4 * j);
    FixedListAt(restarts, j, EncodeFixed32(|restarts|));
  }

  lemma SkipFront(a: Bytes, b: Bytes, c: Bytes, n: nat)
    requires n <= |b|
    ensures (a + b + c)[|a| + n..] == (b + c)[n..]
  {
  }

  lemma CountAt(front: Bytes, count: Word32)
    ensures var block := front + EncodeFixed32(count); DecodeFixed32(block[|block| - 4..]) == count
  {
    assert (front + EncodeFixed32(count))[|front|..] == EncodeFixed32(count) + [];
    Fixed32RoundTrip(count, []);
  }

  lemma FinishedStateIsBlock(pairs: seq<Pair>, interval: nat)
    requires interval >= 1 && AllShort(pairs) && BlockSize(LayoutOf(pairs, interval)) < WORD32
    ensures IsBlock(Finished(StateOf(pairs, interval)), LayoutOf(pairs, interval))
  {
    var st, layout := StateOf(pairs, interval), LayoutOf(pairs, interval);
    StateIsDescribed(pairs, interval);
    SmallModulo(|st.restarts|, WORD32);
    FinishedIsBlock(layout, st.buffer, st.restarts);
  }

  /** Building a block from a list of pairs. */
  method BuildBlock(ghost rank: Rank, pairs: seq<Pair>, interval: nat) returns (block: Bytes)
    requires interval >= 1 && Ascending(rank, pairs)
    requires AllShort(pairs) && BlockSize(LayoutOf(pairs, interval)) < WORD32
    ensures IsBlock(block, LayoutOf(pairs, interval))
  {
    var builder := new BlockBuilder(interval);
    for i := 0 to |pairs|
      invariant fresh(builder) && builder.interval == interval
      invariant builder.State() == StateOf(pairs[..i], interval)
    {
      assert pairs[..i + 1][..i] == pairs[..i];
      builder.Add(pairs[i]);
    }
    assert pairs[..|pairs|] == pairs;
    FinishedStateIsBlock(pairs, interval);
    block := builder.Finish();
  }

  // ---------------------------------------------------------------------
  // The iterator
  // ---------------------------------------------------------------------

  /** Opening a block: where the restart array starts and how long it is, or
      nothing when the size cannot be right. */
  function OpenBlock(data: Bytes): Option<(nat, nat)> {
    if |data| < 4 then None
    else
      var numRestarts := DecodeFixed32(data[|data| - 4..]);
      if numRestarts > (|data| - 4) / 4 then None
      else Some((|data| - (1 + numRestarts) * 4, numRestarts))
  }

  lemma OpenFinished(data: Bytes, layout: Layout)
    requires IsBlock(data, layout)
    ensures OpenBlock(data) == Some((layout.End(), |layout.restarts|))
  {
  }

  /** The first position whose key is at or after `target`. */
  function FirstAtLeast(rank: Rank, pairs: seq<Pair>, target: Bytes): (p: nat)
    ensures p <= |pairs|
    ensures forall w :: 0 <= w < p ==> rank(pairs[w].key) < rank(target)
    ensures p < |pairs| ==> rank(pairs[p].key) >= rank(target)
  {
    if pairs == [] || rank(pairs[0].key) >= rank(target) then 0
    else
      var rest := pairs[1..];
      assert forall w :: 1 <= w < |pairs| ==> pairs[w] == rest[w - 1];
      1 + FirstAtLeast(rank, rest, target)
  }

  lemma FirstAtLeastIsUnique(rank: Rank, pairs: seq<Pair>, target: Bytes, p: nat)
    requires p <= |pairs| && (forall w :: 0 <= w < p ==> rank(pairs[w].key) < rank(target))
    requires p < |pairs| ==> rank(pairs[p].key) >= rank(target)
    ensures FirstAtLeast(rank, pairs, target) == p
  {
  }

  function FirstIn(rank: Rank, pairs: seq<Pair>): Bytes -> nat {
    target => FirstAtLeast(rank, pairs, target)
  }

  ghost function MoveInBlock(rank: Rank, pairs: seq<Pair>, cursor: Option<nat>, op: Op<Bytes>): Option<nat>
    requires CanMove(cursor, op)
  {
    Move(|pairs|, FirstIn(rank, pairs), cursor, op)
  }

  /** Decoding at `start` finds the stored entry: its lengths, the key bytes that
      are not shared, and the value, which ends at `next`. */
  predicate Decodes(data: Bytes, start: nat, next: nat, end: nat, shared: nat, pair: Pair)
    requires start <= next <= end <= |data|
  {
    var lengths := DecodeEntry(data[start..end]);
    && shared <= |pair.key|
    && lengths.Some?
    && lengths.value.shared == shared
    && lengths.value.nonShared == |pair.key| - shared
    && lengths.value.valueLength == |pair.value|
    && start + lengths.value.size + lengths.value.nonShared + |pair.value| == next
    && data[start + lengths.value.size..next - |pair.value|] == pair.key[shared..]
    && data[next - |pair.value|..next] == pair.value
  }

  lemma EntryDecodes(data: Bytes, layout: Layout, i: nat)
    requires layout.In(data) && i < |layout.pairs|
    ensures layout.offsets[i] < layout.offsets[i + 1] <= layout.End() <= |data|
    ensures Decodes(data, layout.offsets[i], layout.offsets[i + 1], layout.End(), layout.shared[i], layout.pairs[i])
  {
    assert layout.EntryAt(data, i);
    OffsetOrder(layout, i + 1, |layout.pairs|);
    StoredEntryDecodes(data, layout.offsets[i], layout.offsets[i + 1], layout.End(), layout.shared[i], layout.pairs[i]);
  }

  lemma StoredEntryDecodes(data: Bytes, start: nat, next: nat, end: nat, shared: nat, pair: Pair)
    requires start <= next <= end <= |data| && shared <= |pair.key| && Short(pair)
    requires data[start..next] == EncodeEntry(shared, pair)
    ensures Decodes(data, start, next, end, shared, pair)
  {
    SplitAt(data, start, next, end, EncodeEntry(shared, pair));
    EntryRoundTrip(shared, pair, data[next..end]);
    EntryParts(data, start, next, EntryHeader(shared, |pair.key| - shared, |pair.value|), pair.key[shared..],
      pair.value);
  }

  lemma SplitAt(data: Bytes, start: nat, next: nat, end: nat, entry: Bytes)
    requires start <= next <= end <= |data| && data[start..next] == entry
    ensures data[start..end] == entry + data[next..end]
  {
  }

  lemma EntryParts(data: Bytes, start: nat, next: nat, header: Bytes, delta: Bytes, value: Bytes)
    requires start <= next <= |data| && data[start..next] == header + delta + value
    ensures start + |header| + |delta| + |value| == next
    ensures data[start + |header|..next - |value|] == delta
    ensures data[next - |value|..next] == value
  {
    var entry := header + delta + value;
    assert forall k :: 0 <= k < next - start ==> data[start + k] == data[start..next][k] == entry[k];
    assert forall k :: 0 <= k < |delta| ==> data[start + |header| + k] == entry[|header| + k] == delta[k];
    assert forall k :: 0 <= k < |value| ==> data[next - |value| + k] == entry[|header| + |delta| + k] == value[k];
  }

  lemma RebuildKey(key: Bytes, next: Bytes, shared: nat)
    requires shared <= |key| && shared <= |next| && key[..shared] <= next
    ensures key[..shared] + next[shared..] == next
  {
  }

  /** Decodes the entry at `current`; in a finished block this cannot fail. */
  method LoadEntry(data: Bytes, current: nat, limit: nat, key: Bytes, ghost next: nat, ghost shared: nat,
                   ghost pair: Pair)
    returns (key': Bytes, valueStart: nat, valueLength: nat)
    requires current <= next <= limit <= |data| && Decodes(data, current, next, limit, shared, pair)
    requires shared <= |key| && key[..shared] <= pair.key
    ensures key' == pair.key && valueStart + valueLength == next
    ensures data[valueStart..valueStart + valueLength] == pair.value
  {
    var lengths := DecodeEntry(data[current..limit]);
    if lengths.None? || |key| < lengths.value.shared {
      assert false;
    }
    var p := current + lengths.value.size;
    RebuildKey(key, pair.key, shared);
    key' := key[..lengths.value.shared] + data[p..p + lengths.value.nonShared];
    valueStart, valueLength := p + lengths.value.nonShared, lengths.value.valueLength;
  }

  class BlockIter {
    const rank: Rank
    const data: Bytes
    const restarts: nat
    const numRestarts: nat
    var current: nat
    var restartIndex: nat
    var key: Bytes
    /** The value is the slice of `data` that starts at `valueStart`. */
    var valueStart: nat
    var valueLength: nat

    ghost const layout: Layout
    /** Index of the current entry; |layout.pairs| when not valid. */
    ghost var at: nat

    constructor (rank: Rank, data: Bytes, restarts: nat, numRestarts: nat, ghost layout: Layout)
      requires IsBlock(data, layout) && Ascending(rank, layout.pairs)
      requires OpenBlock(data) == Some((restarts, numRestarts))
      ensures Valid() && Cursor() == None
      ensures this.layout == layout && this.rank == rank
    {
      OpenFinished(data, layout);
      this.rank, this.data, this.layout := rank, data, layout;
      this.restarts, this.numRestarts := restarts, numRestarts;
      this.current, this.restartIndex := restarts, numRestarts;
      this.key, this.valueStart, this.valueLength := [], 0, 0;
      this.at := |layout.pairs|;
    }

    ghost predicate Open() {
      && IsBlock(data, layout)
      && restarts == layout.End()
      && numRestarts == |layout.restarts|
    }

    ghost predicate Valid()
      reads this
    {
      Open() && Ascending(rank, layout.pairs) && Placed()
    }

    ghost predicate Placed()
      requires Open()
      reads this
    {
      && at <= |layout.pairs|
      && current == layout.offsets[at]
      && (at < |layout.pairs| ==> OnEntry())
    }

    /** The fields hold entry `at`; `restartIndex` is the restart block it
        falls in, or the one before when the entry starts a block. */
    ghost predicate OnEntry()
      requires Open() && at < |layout.pairs|
      reads this
    {
      && restartIndex < numRestarts
      && layout.RestartOffset(restartIndex) <= current
      && (restartIndex + 1 < numRestarts ==> current <= layout.RestartOffset(restartIndex + 1))
      && key == layout.pairs[at].key
      && valueStart + valueLength == layout.offsets[at + 1]
      && valueStart + valueLength <= |data|
      && data[valueStart..valueStart + valueLength] == layout.pairs[at].value
    }

    ghost function Cursor(): Option<nat>
      reads this
    {
      At(|layout.pairs|, at)
    }

    predicate IsValid()
      reads this
    {
      current < restarts
    }

    method Key() returns (k: Bytes)
      requires Valid() && IsValid()
      ensures Cursor().Some? && k == layout.pairs[Cursor().value].key
    {
      k := key;
    }

    method Value() returns (v: Bytes)
      requires Valid() && IsValid()
      ensures Cursor().Some? && v == layout.pairs[Cursor().value].value
    {
      v := data[valueStart..valueStart + valueLength];
    }

    function GetRestartPoint(index: nat): (offset: nat)
      requires Open() && index < numRestarts
      ensures offset == layout.RestartOffset(index)
    {
      assert RestartAt(data, layout, index);
      DecodeFixed32(data[restarts + index * 4..])
    }

    function NextEntryOffset(): nat
      reads this
    {
      valueStart + valueLength
    }

    /** The fields are ready for parsing entry `i`. */
    ghost predicate Ready(i: nat)
      requires Open()
      reads this
    {
      && i <= |layout.pairs|
      && NextEntryOffset() == layout.offsets[i]
      && restartIndex < numRestarts
      && layout.RestartOffset(restartIndex) <= layout.offsets[i]
      && (i < |layout.pairs| ==> layout.shared[i] <= |key| && key[..layout.shared[i]] <= layout.pairs[i].key)
    }

    method SeekToRestartPoint(index: nat)
      requires Open() && index < numRestarts
      modifies this`key, this`restartIndex, this`valueStart, this`valueLength
      ensures Ready(layout.restarts[index]) && restartIndex == index
    {
      key := [];
      restartIndex := index;
      valueStart, valueLength := GetRestartPoint(index), 0;
    }

    method ParseEntry(ghost i: nat)
      requires Open() && Ready(i) && i < |layout.pairs| && at == i && current == layout.offsets[i]
      modifies this`key, this`valueStart, this`valueLength, this`restartIndex
      ensures OnEntry()
    {
      EntryDecodes(data, layout, i);
      key, valueStart, valueLength :=
        LoadEntry(data, current, restarts, key, layout.offsets[i + 1], layout.shared[i], layout.pairs[i]);
      AdvanceRestartIndex();
    }

    lemma EntriesEnd(i: nat)
      requires Open() && i <= |layout.pairs|
      ensures layout.offsets[i] <= restarts && (layout.offsets[i] < restarts <==> i < |layout.pairs|)
    {
      OffsetOrder(layout, i, |layout.pairs|);
    }

    method ParseNextKey(ghost i: nat) returns (more: bool)
      requires Open() && Ready(i)
      modifies this
      ensures Placed() && at == i && more == (i < |layout.pairs|)
    {
      at := i;
      current := NextEntryOffset();
      EntriesEnd(i);
      if current >= restarts {
        current, restartIndex := restarts, numRestarts;
        return false;
      }
      ParseEntry(i);
      more := true;
    }

    method AdvanceRestartIndex()
      requires Open() && restartIndex < numRestarts && layout.RestartOffset(restartIndex) <= current
      modifies this`restartIndex
      ensures restartIndex < numRestarts && layout.RestartOffset(restartIndex) <= current
      ensures restartIndex + 1 < numRestarts ==> current <= layout.RestartOffset(restartIndex + 1)
    {
      while restartIndex + 1 < numRestarts && GetRestartPoint(restartIndex + 1) < current
        invariant restartIndex < numRestarts && layout.RestartOffset(restartIndex) <= current
      {
        restartIndex := restartIndex + 1;
      }
    }

    /** After an entry, the next one can be parsed. */
    lemma NextIsReady()
      requires Open() && Placed() && at < |layout.pairs|
      ensures Ready(at + 1)
    {
      assert layout.offsets[at] < layout.offsets[at + 1];
      assert at + 1 < |layout.pairs| ==> layout.Shares(at + 1);
    }

    method Next()
      requires Valid() && IsValid()
      modifies this
      ensures Valid()
      ensures Cursor() == MoveInBlock(rank, layout.pairs, old(Cursor()), Op.Next)
    {
      NextIsReady();
      var _ := ParseNextKey(at + 1);
    }

    /** On an entry before `stop`, or at the end of an empty block. */
    ghost predicate Scanning(more: bool, stop: nat)
      requires Open() && stop <= |layout.pairs|
      reads this
    {
      && Placed()
      && if more then at < stop && (NextEntryOffset() < layout.offsets[stop] <==> at + 1 < stop)
         else layout.pairs == [] && at == stop
    }

    method ScanStep(ghost i: nat, ghost stop: nat) returns (more: bool)
      requires Open() && Ready(i) && stop <= |layout.pairs| && (i < stop || layout.pairs == [])
      modifies this
      ensures Scanning(more, stop) && (more ==> at == i)
    {
      more := ParseNextKey(i);
      if more {
        OffsetOrder(layout, at + 1, stop);
      }
    }

    /** Parses from entry `i` on until an entry ends at `limit`, where entry
        `stop` starts, or there is none. */
    method ParseUntil(limit: nat, ghost i: nat, ghost stop: nat)
      requires Open() && Ready(i) && stop <= |layout.pairs| && limit == layout.offsets[stop]
      requires i < stop || layout.pairs == []
      modifies this
      ensures Placed() && at == if i < stop then stop - 1 else stop
    {
      var more := ScanStep(i, stop);
      while more && NextEntryOffset() < limit
        invariant Scanning(more, stop)
        decreases stop - at
      {
        NextIsReady();
        more := ScanStep(at + 1, stop);
      }
    }

    /** Scans back to a restart point before `original`, if there is one. */
    method ScanBack(original: nat) returns (found: bool)
      requires Open() && restartIndex < numRestarts
      modifies this`restartIndex
      ensures found ==> restartIndex < numRestarts && layout.RestartOffset(restartIndex) < original
      ensures !found ==> layout.RestartOffset(0) >= original
    {
      while GetRestartPoint(restartIndex) >= original
        invariant restartIndex < numRestarts
        decreases restartIndex
      {
        if restartIndex == 0 {
          return false;
        }
        restartIndex := restartIndex - 1;
      }
      found := true;
    }

    method Prev()
      requires Valid() && IsValid()
      modifies this
      ensures Valid()
      ensures Cursor() == MoveInBlock(rank, layout.pairs, old(Cursor()), Op.Prev)
    {
      ghost var was := at;
      var original := current;
      var found := ScanBack(original);
      if found {
        ParseFromRestart(original, was);
      } else {
        OffsetOrder(layout, 0, was);
        current, restartIndex, at := restarts, numRestarts, |layout.pairs|;
      }
    }

    /** From the restart point on, up to the entry before the one at `original`. */
    method ParseFromRestart(original: nat, ghost was: nat)
      requires Open() && restartIndex < numRestarts && was < |layout.pairs| && original == layout.offsets[was]
      requires layout.RestartOffset(restartIndex) < original
      modifies this
      ensures Placed() && at + 1 == was
    {
      OffsetOrder(layout, layout.restarts[restartIndex], was);
      SeekToRestartPoint(restartIndex);
      ParseUntil(original, layout.restarts[restartIndex], was);
    }

    method SeekToFirst()
      requires Valid()
      modifies this
      ensures Valid()
      ensures Cursor() == MoveInBlock(rank, layout.pairs, old(Cursor()), Op.SeekToFirst)
    {
      SeekToRestartPoint(0);
      var _ := ParseNextKey(0);
    }

    method SeekToLast()
      requires Valid()
      modifies this
      ensures Valid()
      ensures Cursor() == MoveInBlock(rank, layout.pairs, old(Cursor()), Op.SeekToLast)
    {
      SeekToRestartPoint(numRestarts - 1);
      ghost var i := layout.restarts[numRestarts - 1];
      ParseUntil(restarts, i, |layout.pairs|);
    }

    /** The key at a restart point is stored whole. */
    method KeyAtRestart(index: nat) returns (midKey: Bytes)
      requires Open() && 0 < index < numRestarts
      ensures midKey == layout.pairs[layout.restarts[index]].key
    {
      var regionOffset := GetRestartPoint(index);
      EntryDecodes(data, layout, layout.restarts[index]);
      var lengths := DecodeEntry(data[regionOffset..restarts]);
      if lengths.None? || lengths.value.shared != 0 {
        assert false;
      }
      var p := regionOffset + lengths.value.size;
      midKey := data[p..p + lengths.value.nonShared];
    }

    /** Binary search for the last restart point whose key is before `target`, or the first one. */
    method FindRestart(target: Bytes) returns (left: nat)
      requires Open()
      ensures left < numRestarts
      ensures left > 0 ==> rank(layout.pairs[layout.restarts[left]].key) < rank(target)
      ensures left + 1 < numRestarts ==> rank(layout.pairs[layout.restarts[left + 1]].key) >= rank(target)
    {
      left := 0;
      var right := numRestarts - 1;
      while left < right
        invariant 0 <= left <= right < numRestarts
        invariant left > 0 ==> rank(layout.pairs[layout.restarts[left]].key) < rank(target)
        invariant right + 1 < numRestarts ==> rank(layout.pairs[layout.restarts[right + 1]].key) >= rank(target)
      {
        var mid := (left + right + 1) / 2;
        var midKey := KeyAtRestart(mid);
        if rank(midKey) < rank(target) {
          left := mid;
        } else {
          right := mid - 1;
        }
      }
    }

    method Seek(target: Bytes)
      requires Valid()
      modifies this
      ensures Valid()
      ensures Cursor() == MoveInBlock(rank, layout.pairs, old(Cursor()), Op.Seek(target))
    {
      var left := FindRestart(target);
      SeekToRestartPoint(left);
      AllBefore(rank, layout, left, target);
      ScanTo(target, layout.restarts[left]);
      FirstAtLeastIsUnique(rank, layout.pairs, target, at);
    }

    /** Linear search for the first key at or after `target`. */
    method ScanTo(target: Bytes, ghost start: nat)
      requires Open() && Ready(start)
      requires forall w :: 0 <= w < start ==> rank(layout.pairs[w].key) < rank(target)
      modifies this
      ensures Placed()
      ensures forall w :: 0 <= w < at ==> rank(layout.pairs[w].key) < rank(target)
      ensures at < |layout.pairs| ==> rank(layout.pairs[at].key) >= rank(target)
    {
      ghost var i := start;
      while true
        invariant Ready(i)
        invariant forall w :: 0 <= w < i ==> rank(layout.pairs[w].key) < rank(target)
        decreases |layout.pairs| - i
      {
        var more := ParseNextKey(i);
        if !more {
          return;
        }
        if rank(key) >= rank(target) {
          return;
        }
        NextIsReady();
        i := i + 1;
      }
    }
  }

  lemma AllBefore(rank: Rank, layout: Layout, left: nat, target: Bytes)
    requires layout.WellFormed() && Ascending(rank, layout.pairs) && left < |layout.restarts|
    requires left > 0 ==> rank(layout.pairs[layout.restarts[left]].key) < rank(target)
    ensures forall w :: 0 <= w < layout.restarts[left] ==>
      w < |layout.pairs| && rank(layout.pairs[w].key) < rank(target)
  {
  }

  lemma OffsetOrder(layout: Layout, i: nat, j: nat)
    requires layout.WellFormed() && i <= |layout.pairs| && j <= |layout.pairs|
    ensures layout.offsets[i] < layout.offsets[j] <==> i < j
  {
  }

  /** Any legal mixture of operations moves the iterator as it would move a
      cursor over the list of pairs. */
  method PerformAll(it: BlockIter, ops: seq<Op<Bytes>>)
    requires it.Valid()
    requires var pairs := it.layout.pairs; Legal(|pairs|, FirstIn(it.rank, pairs), it.Cursor(), ops)
    modifies it
    ensures it.Valid()
    ensures var pairs := it.layout.pairs;
      it.Cursor() == MoveAll(|pairs|, FirstIn(it.rank, pairs), old(it.Cursor()), ops)
  {
    if ops != [] {
      match ops[0] {
        case SeekToFirst => it.SeekToFirst();
        case SeekToLast => it.SeekToLast();
        case Seek(target) => it.Seek(target);
        case Next => it.Next();
        case Prev => it.Prev();
      }
      PerformAll(it, ops[1..]);
    }
  }

  /** Building a block and iterating over it gives the list that was added. */
  method RoundTrip(rank: Rank, pairs: seq<Pair>, interval: nat) returns (result: seq<Pair>)
    requires interval >= 1 && Ascending(rank, pairs)
    requires AllShort(pairs) && BlockSize(LayoutOf(pairs, interval)) < WORD32
    ensures result == pairs
  {
    var data := BuildBlock(rank, pairs, interval);
    ghost var layout := LayoutOf(pairs, interval);
    OpenFinished(data, layout);
    var (restarts, numRestarts) := OpenBlock(data).value;
    var it := new BlockIter(rank, data, restarts, numRestarts, layout);
    result := ReadAll(it);
  }

  method ReadAll(it: BlockIter) returns (result: seq<Pair>)
    requires it.Valid()
    modifies it
    ensures result == it.layout.pairs
  {
    it.SeekToFirst();
    result := ReadRest(it, []);
  }

  method ReadRest(it: BlockIter, before: seq<Pair>) returns (result: seq<Pair>)
    requires it.Valid() && it.at <= |it.layout.pairs| && before == it.layout.pairs[..it.at]
    modifies it
    ensures result == it.layout.pairs
    decreases |it.layout.pairs| - it.at
  {
    if it.IsValid() {
      var k := it.Key();
      var v := it.Value();
      it.Next();
      result := ReadRest(it, before + [Pair(k, v)]);
    } else {
      result := before;
    }
  }
}
