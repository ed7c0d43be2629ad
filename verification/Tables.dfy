/** Table files: blocks of sorted pairs behind an index of shortened keys, and
    the lookup that opens one block. */
module Tables {
  import opened InternalKeys
  import opened Coding
  import opened Blocks
  import opened IndexKeys

  const TRAILER_SIZE: nat := 5
  const NO_COMPRESSION: Byte := 0

  /** The checksum of a byte string; any function will do. */
  type BlockChecksum = Bytes -> Word32

  // ---------------------------------------------------------------------
  // Blocks in a file
  // ---------------------------------------------------------------------

  datatype Handle = Handle(offset: Word64, size: Word64)

  function EncodeHandle(h: Handle): Bytes {
    EncodeVarint(h.offset) + EncodeVarint(h.size)
  }

  /** Extra bytes after a handle are allowed. */
  function DecodeHandle(b: Bytes): Option<Decoded<Handle>> {
    match GetVarint64(b)
    case None => None
    case Some(Decoded(offset, rest)) =>
      match GetVarint64(rest)
      case None => None
      case Some(Decoded(size, rest')) => Some(Decoded(Handle(offset, size), rest'))
  }

  lemma HandleRoundTrip(h: Handle, rest: Bytes)
    ensures DecodeHandle(EncodeHandle(h) + rest) == Some(Decoded(h, rest))
  {
    assert EncodeHandle(h) + rest == EncodeVarint(h.offset) + (EncodeVarint(h.size) + rest);
    Varint64RoundTrip(h.offset, EncodeVarint(h.size) + rest);
    Varint64RoundTrip(h.size, rest);
  }

  lemma HandleIsRead(handle: Handle)
    ensures DecodeHandle(EncodeHandle(handle)) == Some(Decoded(handle, []))
  {
    assert EncodeHandle(handle) + [] == EncodeHandle(handle);
    HandleRoundTrip(handle, []);
  }

  lemma HandleLength(h: Handle)
    ensures |EncodeHandle(h)| <= 20
  {
    Power128Bounds();
    VarintLength(h.offset, 10);
    VarintLength(h.size, 10);
  }

  function Trailer(crc: BlockChecksum, contents: Bytes): (r: Bytes)
    ensures |r| == TRAILER_SIZE
  {
    [NO_COMPRESSION] + EncodeFixed32(Mask(crc(contents + [NO_COMPRESSION])))
  }

  /** `ReadBlock` with checksum verification; only uncompressed blocks. */
  function ReadBlock(crc: BlockChecksum, file: Bytes, h: Handle): Option<Bytes> {
    if h.offset + h.size + TRAILER_SIZE > |file| then None
    else
      var data := file[h.offset..h.offset + h.size + TRAILER_SIZE];
      if Unmask(DecodeFixed32(data[h.size + 1..])) != crc(data[..h.size + 1]) then None
      else if data[h.size] != NO_COMPRESSION then None
      else Some(data[..h.size])
  }

  /** A block that was written can be read back, whatever is appended later. */
  lemma WrittenBlockIsRead(crc: BlockChecksum, before: Bytes, contents: Bytes, after: Bytes)
    requires |before| + |contents| < WORD64
    ensures ReadBlock(crc, before + contents + Trailer(crc, contents) + after, Handle(|before|, |contents|))
      == Some(contents)
  {
    var trailer := Trailer(crc, contents);
    var data := contents + trailer;
    var n := |contents|;
    Middle(before, contents, trailer, after);
    assert data[..n + 1] == contents + [NO_COMPRESSION] && data[..n] == contents;
    var masked := Mask(crc(contents + [NO_COMPRESSION]));
    assert data[n + 1..] == EncodeFixed32(masked) + [];
    Fixed32RoundTrip(masked, []);
    UnmaskMask(crc(contents + [NO_COMPRESSION]));
  }

  lemma Middle(a: Bytes, b: Bytes, c: Bytes, d: Bytes)
    ensures (a + b + c + d)[|a|..|a| + |b| + |c|] == b + c
  {
  }

  // ---------------------------------------------------------------------
  // The builder
  // ---------------------------------------------------------------------

  function Flatten(groups: seq<seq<Pair>>): seq<Pair> {
    if groups == [] then [] else Flatten(groups[..|groups| - 1]) + groups[|groups| - 1]
  }

  /** The state of the builder: the file so far, the groups of pairs in its data
      blocks and where those are, the pairs of the open block, the index so far,
      and whether the index entry of the last block is still to come. */
  datatype TableState = TableState(
    file: Bytes,
    groups: seq<seq<Pair>>,
    handles: seq<Handle>,
    data: seq<Pair>,
    index: seq<Pair>,
    lastKey: Bytes,
    pending: bool)

  const EMPTY_TABLE: TableState := TableState([], [], [], [], [], [], false)

  datatype Options = Options(crc: BlockChecksum, interval: nat, blockSize: nat)

  predicate Fits(pairs: seq<Pair>, interval: nat) {
    AllShort(pairs) && BlockSize(LayoutOf(pairs, interval)) < WORD32
  }

  function BlockOf(pairs: seq<Pair>, interval: nat): Bytes
    requires AllShort(pairs)
  {
    Finished(StateOf(pairs, interval))
  }

  function SizeEstimate(pairs: seq<Pair>, interval: nat): nat
    requires AllShort(pairs)
  {
    var st := StateOf(pairs, interval);
    |st.buffer| + |st.restarts| * 4 + 4
  }

  predicate HasRoom(file: Bytes, contents: Bytes) {
    |file| + |contents| < WORD64
  }

  function WriteBlock(crc: BlockChecksum, file: Bytes, contents: Bytes): Bytes {
    file + contents + Trailer(crc, contents)
  }

  /** The index once the next key is known: the entry of a finished block is added. */
  function NextIndex(handles: seq<Handle>, index: seq<Pair>, lastKey: Bytes, pending: bool, key: Bytes): seq<Pair> {
    if pending && handles != [] then
      index + [Pair(InternalSeparator(lastKey, key), EncodeHandle(handles[|handles| - 1]))]
    else index
  }

  function ResolvePending(st: TableState, key: Bytes): TableState {
    st.(index := NextIndex(st.handles, st.index, st.lastKey, st.pending, key),
        pending := st.pending && st.handles == [])
  }

  function AppendPair(st: TableState, pair: Pair): TableState {
    st.(data := st.data + [pair], lastKey := pair.key)
  }

  function FlushBlock(o: Options, st: TableState): TableState
    requires AllShort(st.data) && HasRoom(st.file, BlockOf(st.data, o.interval))
  {
    if st.data == [] then st
    else
      var contents := BlockOf(st.data, o.interval);
      st.(file := WriteBlock(o.crc, st.file, contents),
          groups := st.groups + [st.data],
          handles := st.handles + [Handle(|st.file|, |contents|)],
          data := [], pending := true)
  }

  /** The sizes the format can hold. */
  predicate CanAdd(o: Options, st: TableState, pair: Pair) {
    && |pair.key| + 20 < WORD32
    && Fits(st.data + [pair], o.interval)
    && HasRoom(st.file, BlockOf(st.data + [pair], o.interval))
  }

  function AddPair(o: Options, st: TableState, pair: Pair): TableState
    requires CanAdd(o, st, pair)
  {
    var st' := AppendPair(ResolvePending(st, pair.key), pair);
    if SizeEstimate(st'.data, o.interval) >= o.blockSize then FlushBlock(o, st') else st'
  }

  const MAGIC_LOW: Word32 := 0x8b80fb57
  const MAGIC_HIGH: Word32 := 0xdb477524
  const FOOTER_SIZE: nat := 48

  /** Two handles padded to 40 bytes, and the magic number. */
  function EncodeFooter(meta: Handle, index: Handle): (r: Bytes)
    ensures |r| == FOOTER_SIZE
  {
    HandleLength(meta);
    HandleLength(index);
    var handles := EncodeHandle(meta) + EncodeHandle(index);
    handles + seq(40 - |handles|, _ => 0) + EncodeFixed32(MAGIC_LOW) + EncodeFixed32(MAGIC_HIGH)
  }

  function DecodeFooter(b: Bytes): Option<(Handle, Handle)>
    requires |b| == FOOTER_SIZE
  {
    if DecodeFixed32(b[40..]) != MAGIC_LOW || DecodeFixed32(b[44..]) != MAGIC_HIGH then None
    else
      match DecodeHandle(b)
      case None => None
      case Some(Decoded(meta, rest)) =>
        match DecodeHandle(rest)
        case None => None
        case Some(Decoded(index, _)) => Some((meta, index))
  }

  lemma FooterRoundTrip(meta: Handle, index: Handle)
    ensures DecodeFooter(EncodeFooter(meta, index)) == Some((meta, index))
  {
    HandleLength(meta);
    HandleLength(index);
    var m, i, low, high := EncodeHandle(meta), EncodeHandle(index), EncodeFixed32(MAGIC_LOW), EncodeFixed32(MAGIC_HIGH);
    var pad: Bytes := seq(40 - |m + i|, _ => 0);
    var b := m + i + pad + low + high;
    assert b == EncodeFooter(meta, index);
    assert b[40..] == low + high && b[44..] == high + [];
    Fixed32RoundTrip(MAGIC_LOW, high);
    Fixed32RoundTrip(MAGIC_HIGH, []);
    assert b == m + (i + (pad + low + high));
    HandleRoundTrip(meta, i + (pad + low + high));
    HandleRoundTrip(index, pad + low + high);
  }

  /** The index once the last block's entry is added. */
  function FinalIndex(st: TableState): seq<Pair> {
    if st.pending && st.handles != [] then
      st.index + [Pair(InternalSuccessor(st.lastKey), EncodeHandle(st.handles[|st.handles| - 1]))]
    else st.index
  }

  /** A table without a filter. */
  predicate CanFinish(o: Options, st: TableState) {
    && AllShort(st.data) && HasRoom(st.file, BlockOf(st.data, o.interval))
    && CanWriteIndex(o, FlushBlock(o, st), [])
  }

  predicate CanWriteIndex(o: Options, st: TableState, meta: seq<Pair>) {
    && AllShort(meta) && HasRoom(st.file, BlockOf(meta, o.interval))
    && Fits(FinalIndex(st), 1)
    && HasRoom(WithMetaIndex(o, st, meta).file, BlockOf(FinalIndex(st), 1))
  }

  /** The metaindex block lists the filter block, if there is one. */
  function WithMetaIndex(o: Options, st: TableState, meta: seq<Pair>): TableState
    requires AllShort(meta)
  {
    st.(file := WriteBlock(o.crc, st.file, BlockOf(meta, o.interval)))
  }

  /** The finished file: data blocks, the metaindex block, the index block, the footer. */
  function FinishTable(o: Options, st: TableState): Bytes
    requires CanFinish(o, st)
  {
    TableTail(o, FlushBlock(o, st), [])
  }

  function TableTail(o: Options, st: TableState, meta: seq<Pair>): Bytes
    requires CanWriteIndex(o, st, meta)
  {
    var file := WithMetaIndex(o, st, meta).file;
    var index := BlockOf(FinalIndex(st), 1);
    WriteBlock(o.crc, file, index)
    + EncodeFooter(Handle(|st.file|, |BlockOf(meta, o.interval)|), Handle(|file|, |index|))
  }

  /** The bytes of a block of pairs. */
  method RawBlock(pairs: seq<Pair>, interval: nat) returns (raw: Bytes)
    requires interval >= 1 && AllShort(pairs)
    ensures raw == BlockOf(pairs, interval)
  {
    var builder := new BlockBuilder(interval);
    for i := 0 to |pairs|
      invariant fresh(builder) && builder.interval == interval
      invariant builder.State() == StateOf(pairs[..i], interval)
    {
      AppendNext(builder, pairs, i);
    }
    assert pairs[..|pairs|] == pairs;
    raw := builder.Finish();
  }

  /** A block of the first `i` pairs becomes one of one pair more. */
  method AppendNext(block: BlockBuilder, pairs: seq<Pair>, i: nat)
    requires AllShort(pairs) && i < |pairs| && block.State() == StateOf(pairs[..i], block.interval)
    modifies block
    ensures block.State() == StateOf(pairs[..i + 1], block.interval)
  {
    assert pairs[..i + 1] == pairs[..i] + [pairs[i]];
    AppendTo(block, pairs[..i], pairs[i]);
  }

  /** A block of these pairs becomes one of one pair more. */
  method AppendTo(block: BlockBuilder, ghost pairs: seq<Pair>, pair: Pair)
    requires AllShort(pairs) && Short(pair) && block.State() == StateOf(pairs, block.interval)
    modifies block
    ensures AllShort(pairs + [pair]) && block.State() == StateOf(pairs + [pair], block.interval)
  {
    StateAppend(pairs, pair, block.interval);
    block.Add(pair);
  }

  class TableBuilder {
    const o: Options
    const dataBlock: BlockBuilder
    const indexBlock: BlockBuilder
    var file: Bytes
    var lastKey: Bytes
    var pendingIndexEntry: bool
    var pendingHandle: Handle

    ghost var groups: seq<seq<Pair>>
    ghost var handles: seq<Handle>
    ghost var data: seq<Pair>
    ghost var index: seq<Pair>

    ghost function State(): TableState
      reads this
    {
      TableState(file, groups, handles, data, index, lastKey, pendingIndexEntry)
    }

    ghost predicate Valid()
      reads this, dataBlock, indexBlock
    {
      && dataBlock != indexBlock
      && o.interval >= 1 && dataBlock.interval == o.interval && indexBlock.interval == 1
      && AllShort(data) && dataBlock.State() == StateOf(data, o.interval)
      && AllShort(index) && indexBlock.State() == StateOf(index, 1)
      && |lastKey| + 20 < WORD32
      && (pendingIndexEntry ==> data == [] && handles != [] && pendingHandle == handles[|handles| - 1])
    }

    constructor (o: Options)
      requires o.interval >= 1
      ensures Valid() && State() == EMPTY_TABLE && this.o == o && fresh(dataBlock) && fresh(indexBlock)
    {
      var d := new BlockBuilder(o.interval);
      var i := new BlockBuilder(1);
      this.o, this.dataBlock, this.indexBlock := o, d, i;
      this.file, this.lastKey, this.pendingIndexEntry, this.pendingHandle := [], [], false, Handle(0, 0);
      this.groups, this.handles, this.data, this.index := [], [], [], [];
    }

    method AddIndexEntry(key: Bytes)
      requires Valid() && |key| <= |lastKey| && pendingIndexEntry
      modifies this, indexBlock
      ensures Valid()
      ensures State() == old(State()).(index := old(index) +
        [Pair(key, EncodeHandle(old(handles)[|old(handles)| - 1]))],
                                       lastKey := key, pending := false)
    {
      HandleLength(pendingHandle);
      var entry := Pair(key, EncodeHandle(pendingHandle));
      lastKey := key;
      AppendTo(indexBlock, index, entry);
      index := index + [entry];
      pendingIndexEntry := false;
    }

    method AddToBlock(pair: Pair)
      requires Valid() && Short(pair) && |pair.key| + 20 < WORD32 && !pendingIndexEntry
      modifies this, dataBlock
      ensures Valid() && State() == AppendPair(old(State()), pair)
    {
      AppendTo(dataBlock, data, pair);
      lastKey, data := pair.key, data + [pair];
      assert dataBlock.State() == StateOf(data, o.interval);
      assert State() == AppendPair(old(State()), pair);
    }

    method Add(pair: Pair)
      requires Valid() && CanAdd(o, State(), pair)
      modifies this, dataBlock, indexBlock
      ensures Valid() && State() == AddPair(o, old(State()), pair)
    {
      if pendingIndexEntry {
        AddIndexEntry(InternalSeparator(lastKey, pair.key));
      }
      AddToBlock(pair);
      if dataBlock.CurrentSizeEstimate() >= o.blockSize {
        Flush();
      }
    }

    method Flush()
      requires Valid() && HasRoom(file, BlockOf(data, o.interval))
      modifies this, dataBlock
      ensures Valid() && State() == FlushBlock(o, old(State()))
    {
      NonemptyBuffer(data, o.interval);
      if dataBlock.buffer != [] {
        FlushData();
      }
    }

    method FlushData()
      requires Valid() && data != [] && HasRoom(file, BlockOf(data, o.interval))
      modifies this, dataBlock
      ensures Valid() && State() == FlushBlock(o, old(State()))
    {
      ghost var block := data;
      pendingHandle := WriteDataBlock();
      pendingIndexEntry := true;
      groups, handles := groups + [block], handles + [pendingHandle];
      assert State() == FlushBlock(o, old(State()));
    }

    /** The finished data block goes to the file, and the next one starts empty. */
    method WriteDataBlock() returns (handle: Handle)
      requires AllShort(data) && dataBlock.State() == StateOf(data, o.interval) && dataBlock.interval == o.interval
      requires HasRoom(file, BlockOf(data, o.interval))
      modifies this`file, this`data, dataBlock
      ensures data == [] && dataBlock.State() == StateOf([], o.interval)
      ensures handle == Handle(|old(file)|, |BlockOf(old(data), o.interval)|)
      ensures file == WriteBlock(o.crc, old(file), BlockOf(old(data), o.interval))
    {
      var raw := dataBlock.Finish();
      handle := WriteRawBlock(raw);
      dataBlock.Reset();
      data := [];
    }

    method WriteRawBlock(raw: Bytes) returns (handle: Handle)
      requires HasRoom(file, raw)
      modifies this`file
      ensures (old(Valid()) ==> Valid()) && State() == old(State()).(file := file)
      ensures handle == Handle(|old(file)|, |raw|)
      ensures file == WriteBlock(o.crc, old(file), raw)
    {
      handle := Handle(|file|, |raw|);
      file := file + raw + Trailer(o.crc, raw);
    }

    method WriteMetaIndex(meta: seq<Pair>) returns (handle: Handle)
      requires Valid() && AllShort(meta) && HasRoom(file, BlockOf(meta, o.interval))
      modifies this`file
      ensures Valid() && handle == Handle(|old(file)|, |BlockOf(meta, o.interval)|)
      ensures State() == WithMetaIndex(o, old(State()), meta)
    {
      var raw := RawBlock(meta, o.interval);
      handle := WriteRawBlock(raw);
    }

    method WriteIndex() returns (handle: Handle)
      requires Valid() && AllShort(FinalIndex(State())) && HasRoom(file, BlockOf(FinalIndex(State()), 1))
      modifies this, indexBlock
      ensures handle == Handle(|old(file)|, |BlockOf(old(FinalIndex(State())), 1)|)
      ensures file == WriteBlock(o.crc, old(file), BlockOf(old(FinalIndex(State())), 1))
      ensures index == old(FinalIndex(State()))
    {
      if pendingIndexEntry {
        AddIndexEntry(InternalSuccessor(lastKey));
      }
      var raw := indexBlock.Finish();
      handle := Handle(|file|, |raw|);
      file := file + raw + Trailer(o.crc, raw);
    }

    method Finish() returns (table: Bytes)
      requires Valid() && CanFinish(o, State())
      modifies this, dataBlock, indexBlock
      ensures table == FinishTable(o, old(State()))
      ensures index == FinalIndex(FlushBlock(o, old(State())))
    {
      Flush();
      table := WriteTail([]);
    }

    method WriteTail(meta: seq<Pair>) returns (table: Bytes)
      requires Valid() && CanWriteIndex(o, State(), meta)
      modifies this, indexBlock
      ensures table == TableTail(o, old(State()), meta) && index == FinalIndex(old(State()))
    {
      var metaHandle := WriteMetaIndex(meta);
      var indexHandle := WriteIndex();
      file := file + EncodeFooter(metaHandle, indexHandle);
      table := file;
    }
  }

  lemma StateAppend(pairs: seq<Pair>, pair: Pair, interval: nat)
    requires AllShort(pairs) && Short(pair)
    ensures AllShort(pairs + [pair])
    ensures StateOf(pairs + [pair], interval) == AddTo(StateOf(pairs, interval), pair, interval)
  {
    assert (pairs + [pair])[..|pairs|] == pairs;
  }

  lemma NonemptyBuffer(pairs: seq<Pair>, interval: nat)
    requires AllShort(pairs)
    ensures pairs == [] <==> StateOf(pairs, interval).buffer == []
  {
  }

  // ---------------------------------------------------------------------
  // What the builder keeps
  // ---------------------------------------------------------------------

  /** Position in the flat list of the first pair of group `i`. */
  function Start(groups: seq<seq<Pair>>, i: nat): nat
    requires i <= |groups|
  {
    |Flatten(groups[..i])|
  }

  lemma {:induction false} FlatAt(groups: seq<seq<Pair>>, i: nat, j: nat)
    requires i < |groups| && j < |groups[i]|
    ensures Start(groups, i) + j < |Flatten(groups)|
    ensures Flatten(groups)[Start(groups, i) + j] == groups[i][j]
  {
    var n := |groups| - 1;
    if i < n {
      FlatAt(groups[..n], i, j);
      assert groups[..n][..i] == groups[..i];
    }
  }

  lemma StartNext(groups: seq<seq<Pair>>, i: nat)
    requires i < |groups|
    ensures Start(groups, i + 1) == Start(groups, i) + |groups[i]|
  {
    assert groups[..i + 1][..i] == groups[..i];
  }

  lemma {:induction false} StartsAscend(groups: seq<seq<Pair>>, i: nat, j: nat)
    requires i <= j <= |groups|
    ensures Start(groups, i) <= Start(groups, j)
    decreases j
  {
    if i < j {
      StartsAscend(groups, i, j - 1);
      StartNext(groups, j - 1);
    }
  }

  lemma StartAppend(groups: seq<seq<Pair>>, last: seq<Pair>, i: nat)
    requires i <= |groups|
    ensures Start(groups + [last], i) == Start(groups, i)
    ensures Flatten(groups + [last]) == Flatten(groups) + last
  {
    FlattenAppend(groups, last);
    assert (groups + [last])[..i] == groups[..i];
  }

  lemma FlattenAppend(groups: seq<seq<Pair>>, last: seq<Pair>)
    ensures Flatten(groups + [last]) == Flatten(groups) + last
  {
    assert (groups + [last])[..|groups|] == groups;
  }

  /** The pairs of a group are the block that the handle leads to. */
  predicate Stored(o: Options, file: Bytes, pairs: seq<Pair>, h: Handle) {
    Fits(pairs, o.interval) && ReadBlock(o.crc, file, h) == Some(BlockOf(pairs, o.interval))
  }

  lemma StoredStays(o: Options, file: Bytes, more: Bytes, pairs: seq<Pair>, h: Handle)
    requires Stored(o, file, pairs, h)
    ensures Stored(o, file + more, pairs, h)
  {
    var end := h.offset + h.size + TRAILER_SIZE;
    assert (file + more)[h.offset..end] == file[h.offset..end];
  }

  function LastKey(pairs: seq<Pair>): Bytes
    requires pairs != []
  {
    pairs[|pairs| - 1].key
  }

  /** Index entry `i` leads to block `i`, under a key that separates it from the next. */
  predicate IndexEntryOk(groups: seq<seq<Pair>>, handles: seq<Handle>, index: seq<Pair>, pairs: seq<Pair>, i: nat)
    requires i < |groups| == |handles| && i < |index|
  {
    && groups[i] != []
    && index[i].value == EncodeHandle(handles[i])
    && Start(groups, i + 1) < |pairs|
    && Separates(LastKey(groups[i]), index[i].key, pairs[Start(groups, i + 1)].key)
  }

  ghost predicate BlocksOk(o: Options, file: Bytes, groups: seq<seq<Pair>>, handles: seq<Handle>) {
    && |handles| == |groups|
    && forall i :: 0 <= i < |groups| ==> groups[i] != [] && Stored(o, file, groups[i], handles[i])
  }

  ghost predicate IndexOk(groups: seq<seq<Pair>>, handles: seq<Handle>, index: seq<Pair>, pairs: seq<Pair>, n: nat)
    requires n <= |groups| == |handles| && n <= |index|
  {
    forall i :: 0 <= i < n ==> IndexEntryOk(groups, handles, index, pairs, i)
  }

  /** As above, and the key is the one that the internal comparator finds. */
  predicate IndexEntryMade(groups: seq<seq<Pair>>, handles: seq<Handle>, index: seq<Pair>, pairs: seq<Pair>, i: nat)
    requires i < |groups| == |handles| && i < |index|
  {
    && IndexEntryOk(groups, handles, index, pairs, i)
    && index[i].key == InternalSeparator(LastKey(groups[i]), pairs[Start(groups, i + 1)].key)
  }

  ghost predicate IndexMade(groups: seq<seq<Pair>>, handles: seq<Handle>, index: seq<Pair>, pairs: seq<Pair>, n: nat)
    requires n <= |groups| == |handles| && n <= |index|
  {
    forall i :: 0 <= i < n ==> IndexEntryMade(groups, handles, index, pairs, i)
  }

  /** The pairs, the open block and the index fit together. */
  ghost predicate Shaped(groups: seq<seq<Pair>>, handles: seq<Handle>, data: seq<Pair>, index: seq<Pair>,
                         lastKey: Bytes, pending: bool, pairs: seq<Pair>) {
    && |groups| == |handles|
    && Flatten(groups) + data == pairs
    && |index| + (if pending then 1 else 0) == |groups|
    && (pending ==> data == [] && groups[|index|] != [])
    && (groups != [] && data == [] ==> pending)
    && (pairs != [] ==> lastKey == LastKey(pairs))
    && IndexMade(groups, handles, index, pairs, |index|)
  }

  /** After adding `pairs`. */
  ghost predicate Good(o: Options, st: TableState, pairs: seq<Pair>) {
    && o.interval >= 1
    && Fits(st.data, o.interval)
    && Shaped(st.groups, st.handles, st.data, st.index, st.lastKey, st.pending, pairs)
    && BlocksOk(o, st.file, st.groups, st.handles)
  }

  lemma EmptyIsGood(o: Options)
    requires o.interval >= 1
    ensures Good(o, EMPTY_TABLE, [])
  {
  }

  lemma IndexStays(groups: seq<seq<Pair>>, handles: seq<Handle>, index: seq<Pair>, entry: Pair, pairs: seq<Pair>,
                     pair: Pair)
    requires |index| <= |groups| == |handles| && IndexMade(groups, handles, index, pairs, |index|)
    ensures IndexMade(groups, handles, index, pairs + [pair], |index|)
    ensures IndexMade(groups, handles, index + [entry], pairs + [pair], |index|)
  {
    forall i | 0 <= i < |index|
      ensures IndexEntryMade(groups, handles, index, pairs + [pair], i)
      ensures IndexEntryMade(groups, handles, index + [entry], pairs + [pair], i)
    {
      assert IndexEntryMade(groups, handles, index, pairs, i);
    }
  }

  lemma LastOfFlat(groups: seq<seq<Pair>>)
    requires groups != [] && groups[|groups| - 1] != []
    ensures Flatten(groups) != [] && LastKey(Flatten(groups)) == LastKey(groups[|groups| - 1])
    ensures Start(groups, |groups|) == |Flatten(groups)|
  {
    assert groups[..|groups|] == groups;
  }

  /** The entry added for a pending block, once the next pair is known. */
  lemma PendingEntryIsOk(groups: seq<seq<Pair>>, handles: seq<Handle>, index: seq<Pair>, pairs: seq<Pair>, pair: Pair)
    requires |groups| == |handles| == |index| + 1 && groups[|index|] != [] && Flatten(groups) == pairs
    requires IndexMade(groups, handles, index, pairs, |index|)
    ensures pairs != []
    ensures var entry := Pair(InternalSeparator(LastKey(pairs), pair.key), EncodeHandle(handles[|index|]));
      IndexMade(groups, handles, index + [entry], pairs + [pair], |index| + 1)
  {
    LastOfFlat(groups);
    var entry := Pair(InternalSeparator(LastKey(pairs), pair.key), EncodeHandle(handles[|index|]));
    IndexStays(groups, handles, index, entry, pairs, pair);
    InternalSeparatorSeparates(LastKey(pairs), pair.key);
    assert IndexEntryMade(groups, handles, index + [entry], pairs + [pair], |index|);
  }

  lemma Associate(a: seq<Pair>, b: seq<Pair>, c: seq<Pair>)
    ensures (a + b) + c == a + (b + c)
    ensures b == [] ==> a + b == a
  {
  }

  lemma NextIndexIsOk(groups: seq<seq<Pair>>, handles: seq<Handle>, index: seq<Pair>, lastKey: Bytes, pending: bool,
                      pairs: seq<Pair>, pair: Pair)
    requires |groups| == |handles| && |index| + (if pending then 1 else 0) == |groups|
    requires pending ==> groups[|index|] != [] && Flatten(groups) == pairs
    requires pending && pairs != [] ==> lastKey == LastKey(pairs)
    requires IndexMade(groups, handles, index, pairs, |index|)
    ensures var index' := NextIndex(handles, index, lastKey, pending, pair.key);
      |index'| == |groups| && IndexMade(groups, handles, index', pairs + [pair], |index'|)
  {
    if pending {
      PendingEntryIsOk(groups, handles, index, pairs, pair);
    } else {
      IndexStays(groups, handles, index, pair, pairs, pair);
    }
  }

  lemma AppendKeepsShape(groups: seq<seq<Pair>>, handles: seq<Handle>, data: seq<Pair>, index: seq<Pair>,
                         lastKey: Bytes, pending: bool, pairs: seq<Pair>, pair: Pair)
    requires Shaped(groups, handles, data, index, lastKey, pending, pairs)
    ensures var index' := NextIndex(handles, index, lastKey, pending, pair.key);
      Shaped(groups, handles, data + [pair], index', pair.key, false, pairs + [pair])
  {
    Associate(Flatten(groups), data, [pair]);
    NextIndexIsOk(groups, handles, index, lastKey, pending, pairs, pair);
  }

  lemma AppendKeepsGood(o: Options, st: TableState, pairs: seq<Pair>, pair: Pair)
    requires Good(o, st, pairs) && Fits(st.data + [pair], o.interval)
    ensures Good(o, AppendPair(ResolvePending(st, pair.key), pair), pairs + [pair])
  {
    AppendKeepsShape(st.groups, st.handles, st.data, st.index, st.lastKey, st.pending, pairs, pair);
    assert st.pending ==> st.handles != [];
  }

  lemma BlocksStayOk(o: Options, file: Bytes, groups: seq<seq<Pair>>, handles: seq<Handle>, more: Bytes)
    requires BlocksOk(o, file, groups, handles)
    ensures BlocksOk(o, file + more, groups, handles)
  {
    forall i | 0 <= i < |groups| ensures Stored(o, file + more, groups[i], handles[i]) {
      StoredStays(o, file, more, groups[i], handles[i]);
    }
  }

  lemma FlushKeepsBlocksOk(o: Options, file: Bytes, groups: seq<seq<Pair>>, handles: seq<Handle>, data: seq<Pair>)
    requires BlocksOk(o, file, groups, handles) && data != [] && Fits(data, o.interval)
    requires HasRoom(file, BlockOf(data, o.interval))
    ensures var contents := BlockOf(data, o.interval);
      BlocksOk(o, WriteBlock(o.crc, file, contents), groups + [data], handles + [Handle(|file|, |contents|)])
  {
    var contents := BlockOf(data, o.interval);
    var more := contents + Trailer(o.crc, contents);
    BlocksStayOk(o, file, groups, handles, more);
    assert file + more == WriteBlock(o.crc, file, contents) == WriteBlock(o.crc, file, contents) + [];
    WrittenBlockIsRead(o.crc, file, contents, []);
  }

  lemma FlushKeepsIndex(groups: seq<seq<Pair>>, handles: seq<Handle>, index: seq<Pair>, pairs: seq<Pair>,
                          data: seq<Pair>, handle: Handle)
    requires |index| <= |groups| == |handles| && IndexMade(groups, handles, index, pairs, |index|)
    ensures IndexMade(groups + [data], handles + [handle], index, pairs, |index|)
  {
    forall i | 0 <= i < |index| ensures IndexEntryMade(groups + [data], handles + [handle], index, pairs, i) {
      assert IndexEntryMade(groups, handles, index, pairs, i);
      StartAppend(groups, data, i + 1);
    }
  }

  lemma FlushKeepsShape(groups: seq<seq<Pair>>, handles: seq<Handle>, data: seq<Pair>, index: seq<Pair>, lastKey: Bytes,
                        pending: bool, pairs: seq<Pair>, handle: Handle)
    requires Shaped(groups, handles, data, index, lastKey, pending, pairs) && data != []
    ensures Shaped(groups + [data], handles + [handle], [], index, lastKey, true, pairs)
  {
    StartAppend(groups, data, 0);
    Associate(Flatten(groups) + data, [], []);
    FlushKeepsIndex(groups, handles, index, pairs, data, handle);
  }

  lemma FlushKeepsGood(o: Options, st: TableState, pairs: seq<Pair>)
    requires Good(o, st, pairs) && HasRoom(st.file, BlockOf(st.data, o.interval))
    ensures Good(o, FlushBlock(o, st), pairs)
    ensures FlushBlock(o, st).data == []
  {
    if st.data != [] {
      FlushKeepsBlocksOk(o, st.file, st.groups, st.handles, st.data);
      FlushKeepsShape(st.groups, st.handles, st.data, st.index, st.lastKey, st.pending, pairs,
                      Handle(|st.file|, |BlockOf(st.data, o.interval)|));
    }
  }

  lemma AddKeepsGood(o: Options, st: TableState, pairs: seq<Pair>, pair: Pair)
    requires Good(o, st, pairs) && CanAdd(o, st, pair)
    ensures Good(o, AddPair(o, st, pair), pairs + [pair])
  {
    var st' := AppendPair(ResolvePending(st, pair.key), pair);
    AppendKeepsGood(o, st, pairs, pair);
    AddIsAppendOrFlush(o, st, pair);
    if AddPair(o, st, pair) != st' {
      FlushKeepsGood(o, st', pairs + [pair]);
    }
  }

  lemma AddIsAppendOrFlush(o: Options, st: TableState, pair: Pair)
    requires CanAdd(o, st, pair)
    ensures var st' := AppendPair(ResolvePending(st, pair.key), pair);
      AllShort(st'.data) && HasRoom(st'.file, BlockOf(st'.data, o.interval))
      && (AddPair(o, st, pair) == st' || AddPair(o, st, pair) == FlushBlock(o, st'))
  {
  }

  // ---------------------------------------------------------------------
  // How full blocks are
  // ---------------------------------------------------------------------

  lemma {:induction false} FixedListLength(xs: seq<Word32>)
    ensures |FixedList(xs)| == 4 * |xs|
  {
  }

  /** The estimate is the size of the block. */
  lemma EstimateIsSize(pairs: seq<Pair>, interval: nat)
    requires AllShort(pairs)
    ensures SizeEstimate(pairs, interval) == |BlockOf(pairs, interval)|
  {
    FixedListLength(StateOf(pairs, interval).restarts);
  }

  /** The block reaches the block size with its last pair, and not before. */
  predicate JustFull(o: Options, pairs: seq<Pair>) {
    && AllShort(pairs) && pairs != []
    && |BlockOf(pairs, o.interval)| >= o.blockSize
    && (|pairs| > 1 ==> AllShort(pairs[..|pairs| - 1]) && |BlockOf(pairs[..|pairs| - 1], o.interval)| < o.blockSize)
  }

  /** All blocks written are just full, and the open one is not. */
  predicate BlocksFull(o: Options, st: TableState) {
    && (forall i :: 0 <= i < |st.groups| ==> JustFull(o, st.groups[i]))
    && (st.data != [] ==> AllShort(st.data) && |BlockOf(st.data, o.interval)| < o.blockSize)
  }

  /** While pairs are added, a block is written as soon as it is full. */
  lemma AddKeepsBlocksFull(o: Options, st: TableState, pair: Pair)
    requires CanAdd(o, st, pair) && BlocksFull(o, st)
    ensures BlocksFull(o, AddPair(o, st, pair))
  {
    var data := st.data + [pair];
    assert data[..|st.data|] == st.data;
    EstimateIsSize(data, o.interval);
  }

  // ---------------------------------------------------------------------
  // The finished table
  // ---------------------------------------------------------------------

  datatype TableLayout = TableLayout(groups: seq<seq<Pair>>, handles: seq<Handle>, index: seq<Pair>)

  /** The last index key is at or after the last key of the last block. */
  predicate LastEntryOk(t: TableLayout)
    requires |t.groups| == |t.handles| == |t.index| && t.groups != []
  {
    var n := |t.groups| - 1;
    && t.groups[n] != []
    && t.index[n].value == EncodeHandle(t.handles[n])
    && (t.index[n].key == LastKey(t.groups[n]) || BytesLess(UserOf(LastKey(t.groups[n])), UserOf(t.index[n].key)))
  }

  ghost predicate IsTable(o: Options, file: Bytes, t: TableLayout, pairs: seq<Pair>) {
    Indexed(t, pairs) && BlocksOk(o, file, t.groups, t.handles)
  }

  /** The groups make up `pairs`, and the index separates them. */
  ghost predicate Indexed(t: TableLayout, pairs: seq<Pair>) {
    && |t.index| == |t.groups| == |t.handles|
    && Flatten(t.groups) == pairs
    && Ascending(InternalRank, pairs)
    && (forall i :: 0 <= i < |t.groups| ==> t.groups[i] != [])
    && (t.groups != [] ==> IndexOk(t.groups, t.handles, t.index, pairs, |t.groups| - 1) && LastEntryOk(t))
  }

  /** The index keys are those that the internal comparator finds. */
  ghost predicate ShortKeys(t: TableLayout, pairs: seq<Pair>) {
    t.groups != [] ==>
      var n := |t.groups| - 1;
      && |t.index| == |t.handles| == |t.groups| && t.groups[n] != []
      && IndexMade(t.groups, t.handles, t.index, pairs, n)
      && t.index[n].key == InternalSuccessor(LastKey(t.groups[n]))
  }

  function LayoutAtEnd(o: Options, st: TableState): TableLayout
    requires CanFinish(o, st)
  {
    var st' := FlushBlock(o, st);
    TableLayout(st'.groups, st'.handles, FinalIndex(st'))
  }

  /** `Table::Open`: the contents of the index block. */
  function OpenTable(crc: BlockChecksum, file: Bytes): Option<Bytes> {
    if |file| < FOOTER_SIZE then None
    else
      match DecodeFooter(file[|file| - FOOTER_SIZE..])
      case None => None
      case Some((_, index)) => ReadBlock(crc, file, index)
  }

  /** The contents of the metaindex block. */
  function OpenMeta(crc: BlockChecksum, file: Bytes): Option<Bytes> {
    if |file| < FOOTER_SIZE then None
    else
      match DecodeFooter(file[|file| - FOOTER_SIZE..])
      case None => None
      case Some((meta, _)) => ReadBlock(crc, file, meta)
  }

  lemma FinishedTableOpens(o: Options, st: TableState)
    requires CanFinish(o, st)
    ensures OpenTable(o.crc, FinishTable(o, st)) == Some(BlockOf(LayoutAtEnd(o, st).index, 1))
    ensures FlushBlock(o, st).file <= FinishTable(o, st)
  {
    TailOpens(o, FlushBlock(o, st), []);
  }

  /** Opening a finished table finds its index and its metaindex. */
  lemma TailOpens(o: Options, st: TableState, meta: seq<Pair>)
    requires CanWriteIndex(o, st, meta)
    ensures OpenTable(o.crc, TableTail(o, st, meta)) == Some(BlockOf(FinalIndex(st), 1))
    ensures OpenMeta(o.crc, TableTail(o, st, meta)) == Some(BlockOf(meta, o.interval))
    ensures st.file <= TableTail(o, st, meta)
  {
    TailIsRead(o.crc, st.file, BlockOf(meta, o.interval), BlockOf(FinalIndex(st), 1));
  }

  /** The footer at the end of a file is found again. */
  lemma FooterIsRead(front: Bytes, meta: Handle, index: Handle)
    ensures var file := front + EncodeFooter(meta, index);
      DecodeFooter(file[|file| - FOOTER_SIZE..]) == Some((meta, index))
  {
    var footer := EncodeFooter(meta, index);
    assert (front + footer)[|front + footer| - FOOTER_SIZE..] == footer;
    FooterRoundTrip(meta, index);
  }

  /** A block with anything after it, in any grouping, can be read back. */
  lemma BlockIsRead(crc: BlockChecksum, before: Bytes, contents: Bytes, file: Bytes)
    requires HasRoom(before, contents) && WriteBlock(crc, before, contents) <= file
    ensures ReadBlock(crc, file, Handle(|before|, |contents|)) == Some(contents)
  {
    var front := WriteBlock(crc, before, contents);
    assert file == front + file[|front|..];
    WrittenBlockIsRead(crc, before, contents, file[|front|..]);
  }

  /** Reading a file that ends with a metaindex block, an index block and a
      footer that leads to them. */
  lemma TailIsRead(crc: BlockChecksum, before: Bytes, meta: Bytes, index: Bytes)
    requires HasRoom(before, meta) && HasRoom(WriteBlock(crc, before, meta), index)
    ensures var file := WriteBlock(crc, before, meta);
      var table := WriteBlock(crc, file, index) + EncodeFooter(Handle(|before|, |meta|), Handle(|file|, |index|));
      OpenTable(crc, table) == Some(index) && OpenMeta(crc, table) == Some(meta) && before <= table
  {
    var file := WriteBlock(crc, before, meta);
    var front := WriteBlock(crc, file, index);
    var metaHandle, indexHandle := Handle(|before|, |meta|), Handle(|file|, |index|);
    var table := front + EncodeFooter(metaHandle, indexHandle);
    FooterIsRead(front, metaHandle, indexHandle);
    Extends(crc, before, meta);
    Extends(crc, file, index);
    BlockIsRead(crc, before, meta, table);
    BlockIsRead(crc, file, index, table);
  }

  lemma Extends(crc: BlockChecksum, before: Bytes, contents: Bytes)
    ensures before <= WriteBlock(crc, before, contents)
  {
  }

  lemma FinalIndexIsOk(st: TableState, pairs: seq<Pair>)
    requires |st.groups| == |st.handles| && Flatten(st.groups) == pairs
    requires |st.index| + (if st.pending then 1 else 0) == |st.groups|
    requires st.groups != [] ==> st.pending && st.groups[|st.groups| - 1] != []
    requires pairs != [] ==> st.lastKey == LastKey(pairs)
    requires IndexMade(st.groups, st.handles, st.index, pairs, |st.index|)
    ensures var t := TableLayout(st.groups, st.handles, FinalIndex(st));
      |t.index| == |t.groups| && ShortKeys(t, pairs)
      && (t.groups != [] ==> IndexOk(t.groups, t.handles, t.index, pairs, |t.groups| - 1) && LastEntryOk(t))
  {
    if st.groups != [] {
      LastOfFlat(st.groups);
      InternalSuccessorIsAfter(st.lastKey);
      var index := FinalIndex(st);
      forall i | 0 <= i < |st.index|
        ensures IndexEntryMade(st.groups, st.handles, index, pairs, i)
        ensures IndexEntryOk(st.groups, st.handles, index, pairs, i)
      {
        assert IndexEntryMade(st.groups, st.handles, st.index, pairs, i);
      }
    }
  }

  /** What `Finish` writes is a table of the pairs added. */
  lemma FinishedIsTable(o: Options, st: TableState, pairs: seq<Pair>)
    requires Good(o, st, pairs) && CanFinish(o, st) && Ascending(InternalRank, pairs)
    ensures IsTable(o, FinishTable(o, st), LayoutAtEnd(o, st), pairs)
    ensures ShortKeys(LayoutAtEnd(o, st), pairs)
  {
    FlushKeepsGood(o, st, pairs);
    FinishedTableOpens(o, st);
    FlushedIsTable(o, FlushBlock(o, st), FinishTable(o, st), pairs);
  }

  lemma FlushedIsTable(o: Options, st: TableState, table: Bytes, pairs: seq<Pair>)
    requires Good(o, st, pairs) && st.data == [] && Ascending(InternalRank, pairs) && st.file <= table
    ensures IsTable(o, table, TableLayout(st.groups, st.handles, FinalIndex(st)), pairs)
    ensures ShortKeys(TableLayout(st.groups, st.handles, FinalIndex(st)), pairs)
  {
    Associate(Flatten(st.groups), st.data, []);
    FinalIndexIsOk(st, pairs);
    LongerBlocksOk(o, st.file, table, st.groups, st.handles);
  }

  lemma LongerBlocksOk(o: Options, file: Bytes, longer: Bytes, groups: seq<seq<Pair>>, handles: seq<Handle>)
    requires BlocksOk(o, file, groups, handles) && file <= longer
    ensures BlocksOk(o, longer, groups, handles)
  {
    assert longer == file + longer[|file|..];
    BlocksStayOk(o, file, groups, handles, longer[|file|..]);
  }

  /** Every step of building a table fits in the format. */
  predicate CanBuild(o: Options, st: TableState, pairs: seq<Pair>)
    decreases |pairs|
  {
    if pairs == [] then CanFinish(o, st)
    else CanAdd(o, st, pairs[0]) && CanBuild(o, AddPair(o, st, pairs[0]), pairs[1..])
  }

  lemma AddKeepsBoth(o: Options, st: TableState, done: seq<Pair>, pair: Pair)
    requires Good(o, st, done) && CanAdd(o, st, pair) && BlocksFull(o, st)
    ensures Good(o, AddPair(o, st, pair), done + [pair]) && BlocksFull(o, AddPair(o, st, pair))
  {
    AddKeepsGood(o, st, done, pair);
    AddKeepsBlocksFull(o, st, pair);
  }

  method AddFirst(builder: TableBuilder, ghost done: seq<Pair>, pair: Pair)
    requires builder.Valid() && Good(builder.o, builder.State(), done) && CanAdd(builder.o, builder.State(), pair)
    requires BlocksFull(builder.o, builder.State())
    modifies builder, builder.dataBlock, builder.indexBlock
    ensures builder.Valid() && Good(builder.o, builder.State(), done + [pair])
    ensures builder.State() == AddPair(builder.o, old(builder.State()), pair)
    ensures BlocksFull(builder.o, builder.State())
  {
    AddKeepsBoth(builder.o, builder.State(), done, pair);
    builder.Add(pair);
  }

  lemma OneAtATime(done: seq<Pair>, pairs: seq<Pair>)
    ensures pairs == [] ==> done + pairs == done
    ensures [] + pairs == pairs
    ensures pairs != [] ==> (done + [pairs[0]]) + pairs[1..] == done + pairs
  {
  }

  method AddRest(builder: TableBuilder, ghost done: seq<Pair>, pairs: seq<Pair>)
    requires builder.Valid() && Good(builder.o, builder.State(), done) && CanBuild(builder.o, builder.State(), pairs)
    requires BlocksFull(builder.o, builder.State())
    modifies builder, builder.dataBlock, builder.indexBlock
    ensures builder.Valid() && CanFinish(builder.o, builder.State())
    ensures Good(builder.o, builder.State(), done + pairs) && BlocksFull(builder.o, builder.State())
    decreases |pairs|
  {
    OneAtATime(done, pairs);
    if pairs != [] {
      AddFirst(builder, done, pairs[0]);
      AddRest(builder, done + [pairs[0]], pairs[1..]);
    }
  }

  /** Every block is just full, but perhaps the last. */
  predicate AllButLastFull(o: Options, groups: seq<seq<Pair>>) {
    forall i :: 0 <= i < |groups| - 1 ==> JustFull(o, groups[i])
  }

  lemma LastMayBeShort(o: Options, st: TableState)
    requires CanFinish(o, st) && BlocksFull(o, st)
    ensures AllButLastFull(o, LayoutAtEnd(o, st).groups)
  {
  }

  /** A finished file, and how its pairs are laid out. */
  ghost predicate IsBuilt(o: Options, file: Bytes, t: TableLayout, pairs: seq<Pair>) {
    && IsTable(o, file, t, pairs) && AllButLastFull(o, t.groups) && ShortKeys(t, pairs)
    && Fits(t.index, 1) && OpenTable(o.crc, file) == Some(BlockOf(t.index, 1))
  }

  lemma FinishedIsBuilt(o: Options, st: TableState, pairs: seq<Pair>)
    requires Good(o, st, pairs) && BlocksFull(o, st) && CanFinish(o, st) && Ascending(InternalRank, pairs)
    ensures IsBuilt(o, FinishTable(o, st), LayoutAtEnd(o, st), pairs)
  {
    FinishedIsTable(o, st, pairs);
    FinishedTableOpens(o, st);
    LastMayBeShort(o, st);
  }

  method FinishBuilt(builder: TableBuilder, ghost pairs: seq<Pair>) returns (file: Bytes, ghost t: TableLayout)
    requires builder.Valid() && Good(builder.o, builder.State(), pairs) && BlocksFull(builder.o, builder.State())
    requires CanFinish(builder.o, builder.State()) && Ascending(InternalRank, pairs)
    modifies builder, builder.dataBlock, builder.indexBlock
    ensures IsBuilt(builder.o, file, t, pairs)
  {
    FinishedIsBuilt(builder.o, builder.State(), pairs);
    t := LayoutAtEnd(builder.o, builder.State());
    file := builder.Finish();
  }

  /** Building a table from a sorted list. */
  method BuildTable(o: Options, pairs: seq<Pair>) returns (file: Bytes, ghost t: TableLayout)
    requires o.interval >= 1 && Ascending(InternalRank, pairs) && CanBuild(o, EMPTY_TABLE, pairs)
    ensures IsBuilt(o, file, t, pairs)
  {
    var builder := new TableBuilder(o);
    EmptyIsGood(o);
    AddRest(builder, [], pairs);
    OneAtATime([], pairs);
    file, t := FinishBuilt(builder, pairs);
  }
}
