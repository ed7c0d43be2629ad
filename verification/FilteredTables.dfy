/** The filter block calls of a table builder, and lookups through the filter. */
module FilteredTables {
  import opened InternalKeys
  import opened Coding
  import opened Blocks
  import opened IndexKeys
  import opened Tables
  import opened TableReaders
  import opened FilterBlocks
  import Filters

  // ---------------------------------------------------------------------
  // The internal filter policy
  // ---------------------------------------------------------------------

  function UserKeys(keys: seq<Bytes>): (r: seq<Bytes>)
    ensures |r| == |keys| && forall i :: 0 <= i < |keys| ==> r[i] == UserOf(keys[i])
  {
    seq(|keys|, i requires 0 <= i < |keys| => UserOf(keys[i]))
  }

  /** `InternalFilterPolicy` over the Bloom filter policy: only user keys count. */
  function InternalPolicy(b: Filters.Bloom): Policy {
    Policy(keys => Filters.FilterOf(b, UserKeys(keys)), (key, filter) => Filters.KeyMayMatch(b, UserOf(key), filter))
  }

  lemma InternalPolicyAccepts(b: Filters.Bloom, stored: Bytes, key: Bytes)
    requires UserOf(stored) == UserOf(key)
    ensures Accepts(InternalPolicy(b), stored, key)
  {
    var p := InternalPolicy(b);
    forall ks | stored in ks ensures p.mayMatch(key, p.create(ks)) {
      var i :| 0 <= i < |ks| && ks[i] == stored;
      assert UserKeys(ks)[i] == UserOf(key);
      Filters.BloomHasNoFalseNegatives(b, UserKeys(ks), UserOf(key));
    }
  }

  // ---------------------------------------------------------------------
  // The calls of a table builder
  // ---------------------------------------------------------------------

  function KeysOf(pairs: seq<Pair>): seq<Bytes> {
    if pairs == [] then [] else KeysOf(pairs[..|pairs| - 1]) + [pairs[|pairs| - 1].key]
  }

  lemma {:induction false} KeysOfHas(pairs: seq<Pair>, j: nat)
    requires j < |pairs|
    ensures pairs[j].key in KeysOf(pairs)
  {
    if j < |pairs| - 1 {
      KeysOfHas(pairs[..|pairs| - 1], j);
    }
  }

  /** The data blocks written, as the filter block builder was told of them. */
  function Written(groups: seq<seq<Pair>>, handles: seq<Handle>): (r: seq<Block>)
    requires |groups| == |handles|
    ensures |r| == |groups|
  {
    if groups == [] then []
    else
      var n := |groups| - 1;
      Written(groups[..n], handles[..n]) + [Block(handles[n].offset, KeysOf(groups[n]))]
  }

  /** All calls so far: the written blocks and the one being filled. */
  function Calls(st: TableState): seq<Block>
    requires |st.groups| == |st.handles|
  {
    Written(st.groups, st.handles) + [Block(|st.file|, KeysOf(st.data))]
  }

  lemma {:induction false} WrittenAt(groups: seq<seq<Pair>>, handles: seq<Handle>, i: nat)
    requires i < |groups| == |handles|
    ensures Written(groups, handles)[i] == Block(handles[i].offset, KeysOf(groups[i]))
  {
    var n := |groups| - 1;
    if i < n {
      WrittenAt(groups[..n], handles[..n], i);
    }
  }

  /** What the filter has been told when the table is at `st`. */
  function Told(st: TableState): Windows {
    if |st.groups| == |st.handles| then Run(Calls(st)) else NO_WINDOWS
  }

  /** The constructor tells the filter of a block at offset 0. */
  lemma StartIsCalls()
    ensures Told(EMPTY_TABLE) == AfterStart(NO_WINDOWS, 0)
  {
    var calls := Calls(EMPTY_TABLE);
    assert calls == [Block(0, [])] && calls[..0] == [];
  }

  /** Adding a pair tells the filter of its key. */
  lemma AppendIsAddKey(st: TableState, pair: Pair)
    requires |st.groups| == |st.handles|
    ensures Told(AppendPair(st, pair)) == AfterKey(Told(st), pair.key)
  {
    assert (st.data + [pair])[..|st.data|] == st.data;
    OneMoreKey(Written(st.groups, st.handles), |st.file|, KeysOf(st.data), pair.key);
  }

  /** Flushing a block tells the filter of the next one, at the file's new end. */
  lemma FlushIsStartBlock(o: Options, st: TableState)
    requires |st.groups| == |st.handles| && st.data != []
    requires AllShort(st.data) && HasRoom(st.file, BlockOf(st.data, o.interval))
    ensures var st' := FlushBlock(o, st); Told(st') == AfterStart(Told(st), |st'.file|)
  {
    var st' := FlushBlock(o, st);
    var n := |st.groups|;
    assert st'.groups[..n] == st.groups && st'.handles[..n] == st.handles;
    assert Written(st'.groups, st'.handles) == Calls(st);
    RunLast(Calls(st), Block(|st'.file|, []));
  }

  /** Blocks lie in the file in order. */
  predicate InOrder(file: Bytes, handles: seq<Handle>) {
    && (forall i, j :: 0 <= i < j < |handles| ==> handles[i].offset <= handles[j].offset)
    && (forall i :: 0 <= i < |handles| ==> handles[i].offset <= |file|)
  }

  lemma FlushKeepsOrder(o: Options, st: TableState)
    requires AllShort(st.data) && HasRoom(st.file, BlockOf(st.data, o.interval))
    requires InOrder(st.file, st.handles)
    ensures InOrder(FlushBlock(o, st).file, FlushBlock(o, st).handles)
  {
  }

  lemma AddKeepsOrder(o: Options, st: TableState, pair: Pair)
    requires CanAdd(o, st, pair) && InOrder(st.file, st.handles)
    ensures InOrder(AddPair(o, st, pair).file, AddPair(o, st, pair).handles)
  {
    var st' := AppendPair(ResolvePending(st, pair.key), pair);
    AddIsAppendOrFlush(o, st, pair);
    FlushKeepsOrder(o, st');
  }

  lemma InOrderIsLegal(st: TableState)
    requires |st.groups| == |st.handles| && InOrder(st.file, st.handles)
    ensures Legal(Calls(st))
  {
    var calls, n := Calls(st), |st.handles|;
    forall i, j | 0 <= i < j < |calls| ensures calls[i].Window() <= calls[j].Window() {
      WrittenAt(st.groups, st.handles, i);
      assert calls[i].offset == st.handles[i].offset;
      if j < n {
        WrittenAt(st.groups, st.handles, j);
        assert calls[j].offset == st.handles[j].offset;
      }
      Monotone(calls[i].offset, calls[j].offset);
    }
  }

  lemma Monotone(a: nat, b: nat)
    requires a <= b
    ensures a / FILTER_BASE <= b / FILTER_BASE
  {
  }

  // ---------------------------------------------------------------------
  // Lookups
  // ---------------------------------------------------------------------

  /** The filter block when the table is at `st`. */
  function FilterBlockAt(p: Policy, st: TableState): Bytes {
    FilterBlockOf(p, FinishWindows(Told(st)).done)
  }

  /** The filter check of a lookup. */
  function MayMatch(b: Filters.Bloom, filterBlock: Bytes): (nat, Bytes) -> bool {
    var reader := OpenReader(filterBlock);
    (offset: nat, k: Bytes) => KeyMayMatch(InternalPolicy(b), reader, offset, k)
  }

  /** The filter block never denies a user key that a data block holds. */
  lemma FilterOfTableIsSound(b: Filters.Bloom, st: TableState, index: seq<Pair>)
    requires |st.groups| == |st.handles| && InOrder(st.file, st.handles)
    requires |FilterBlockAt(InternalPolicy(b), st)| < WORD32
    ensures NoFalseNegatives(MayMatch(b, FilterBlockAt(InternalPolicy(b), st)),
      TableLayout(st.groups, st.handles, index))
  {
    forall i, j, k | 0 <= i < |st.groups| && 0 <= j < |st.groups[i]| && UserOf(k) == UserOf(st.groups[i][j].key)
      ensures MayMatch(b, FilterBlockAt(InternalPolicy(b), st))(st.handles[i].offset, k)
    {
      KeyIsNotDenied(b, st, i, j, k);
    }
  }

  lemma KeyIsNotDenied(b: Filters.Bloom, st: TableState, i: nat, j: nat, k: Bytes)
    requires |st.groups| == |st.handles| && InOrder(st.file, st.handles)
    requires |FilterBlockAt(InternalPolicy(b), st)| < WORD32
    requires i < |st.groups| && j < |st.groups[i]| && UserOf(k) == UserOf(st.groups[i][j].key)
    ensures MayMatch(b, FilterBlockAt(InternalPolicy(b), st))(st.handles[i].offset, k)
  {
    InOrderIsLegal(st);
    WrittenAt(st.groups, st.handles, i);
    KeysOfHas(st.groups[i], j);
    InternalPolicyAccepts(b, st.groups[i][j].key, k);
    FilterBlockHasNoFalseNegatives(InternalPolicy(b), Calls(st), i, st.groups[i][j].key, k);
  }

  /** What adding a pair means for the filter, with and without a flush. */
  lemma AddCalls(o: Options, st: TableState, pair: Pair)
    requires CanAdd(o, st, pair) && |st.groups| == |st.handles|
    ensures var st' := AddPair(o, st, pair);
      |st'.groups| == |st'.handles|
      && Told(st') == if st'.data == [] then AfterStart(AfterKey(Told(st), pair.key), |st'.file|)
                      else AfterKey(Told(st), pair.key)
  {
    var resolved := ResolvePending(st, pair.key);
    AddIsAppendOrFlush(o, st, pair);
    assert Calls(resolved) == Calls(st);
    AppendIsAddKey(resolved, pair);
    FlushIsStartBlock(o, AppendPair(resolved, pair));
  }

  // ---------------------------------------------------------------------
  // The filter in the file
  // ---------------------------------------------------------------------

  /** "filter." */
  const FILTER_PREFIX: Bytes := [102, 105, 108, 116, 101, 114, 46]

  /** The metaindex entry of a filter made by the policy of this name. */
  function FilterEntry(name: Bytes, handle: Handle): Pair {
    Pair(FILTER_PREFIX + name, EncodeHandle(handle))
  }

  /** With the filter block written. */
  function WithFilter(o: Options, p: Policy, st: TableState): TableState {
    st.(file := WriteBlock(o.crc, st.file, FilterBlockAt(p, st)))
  }

  predicate CanWriteFiltered(o: Options, p: Policy, st: TableState, name: Bytes) {
    && HasRoom(st.file, FilterBlockAt(p, st)) && |FilterBlockAt(p, st)| < WORD32
    && var meta := [FilterEntry(name, Handle(|st.file|, |FilterBlockAt(p, st)|))];
       Fits(meta, o.interval) && CanWriteIndex(o, WithFilter(o, p, st), meta)
  }

  predicate CanFinishFiltered(o: Options, p: Policy, st: TableState, name: Bytes) {
    && AllShort(st.data) && HasRoom(st.file, BlockOf(st.data, o.interval))
    && CanWriteFiltered(o, p, FlushBlock(o, st), name)
  }

  function FilteredTail(o: Options, p: Policy, st: TableState, name: Bytes): Bytes
    requires CanWriteFiltered(o, p, st, name)
  {
    TableTail(o, WithFilter(o, p, st), [FilterEntry(name, Handle(|st.file|, |FilterBlockAt(p, st)|))])
  }

  /** What opening such a file finds: the index, the metaindex with one entry,
      and the filter block that it leads to. */
  lemma FilteredTailOpens(o: Options, p: Policy, st: TableState, name: Bytes)
    requires CanWriteFiltered(o, p, st, name)
    ensures var file := FilteredTail(o, p, st, name);
      var handle := Handle(|st.file|, |FilterBlockAt(p, st)|);
      && OpenTable(o.crc, file) == Some(BlockOf(FinalIndex(st), 1)) && Fits(FinalIndex(st), 1)
      && OpenMeta(o.crc, file) == Some(BlockOf([FilterEntry(name, handle)], o.interval))
      && ReadBlock(o.crc, file, handle) == Some(FilterBlockAt(p, st))
      && st.file <= file
  {
    var filterBlock := FilterBlockAt(p, st);
    var meta := [FilterEntry(name, Handle(|st.file|, |filterBlock|))];
    TailOpens(o, WithFilter(o, p, st), meta);
    Extends(o.crc, st.file, filterBlock);
    BlockIsRead(o.crc, st.file, filterBlock, FilteredTail(o, p, st, name));
  }

  /** The user comparator of the metaindex. */
  function BytewiseRank(key: Bytes): real {
    Fraction(key, 0.0)
  }

  /** `ReadMeta` and `ReadFilter`: the filter block the metaindex lists under the
      policy's name. */
  method ReadFilter(o: Options, file: Bytes, name: Bytes, ghost handle: Handle, ghost filterBlock: Bytes)
    returns (r: Option<Bytes>)
    requires o.interval >= 1 && Fits([FilterEntry(name, handle)], o.interval)
    requires OpenMeta(o.crc, file) == Some(BlockOf([FilterEntry(name, handle)], o.interval))
    requires ReadBlock(o.crc, file, handle) == Some(filterBlock)
    ensures r == Some(filterBlock)
  {
    ghost var entries := [FilterEntry(name, handle)];
    var key := FILTER_PREFIX + name;
    var meta := OpenMeta(o.crc, file);
    var entry := SeekByRank(BytewiseRank, meta.value, key, entries, o.interval);
    FirstOfOne(BytewiseRank, entries[0], key);
    r := None;
    if entry.Some? && entry.value.key == key {
      HandleIsRead(handle);
      var h := DecodeHandle(entry.value.value);
      if h.Some? {
        r := ReadBlock(o.crc, file, h.value.value);
      }
    }
  }

  lemma FirstOfOne(rank: Rank, pair: Pair, key: Bytes)
    requires pair.key == key
    ensures FirstAtLeast(rank, [pair], key) == 0
  {
  }

  method HasNoData(table: TableBuilder) returns (r: bool)
    requires table.Valid()
    ensures r <==> table.data == []
  {
    NonemptyBuffer(table.data, table.o.interval);
    r := table.dataBlock.buffer == [];
  }

  /** A table builder and the filter block builder it drives. */
  class FilteredTableBuilder {
    const table: TableBuilder
    const filter: FilterBlockBuilder

    ghost predicate Valid()
      reads table, table.dataBlock, table.indexBlock, filter
    {
      table.Valid() && filter.Valid() && |table.groups| == |table.handles| && filter.windows == Told(table.State())
    }

    constructor (o: Options, b: Filters.Bloom)
      requires o.interval >= 1
      ensures Valid() && table.State() == EMPTY_TABLE && table.o == o
      ensures filter.policy == InternalPolicy(b)
      ensures fresh(table) && fresh(table.dataBlock) && fresh(table.indexBlock) && fresh(filter)
    {
      table := new TableBuilder(o);
      filter := new FilterBlockBuilder(InternalPolicy(b));
      new;
      filter.StartBlock(0);
      StartIsCalls();
    }

    method Add(pair: Pair)
      requires Valid() && CanAdd(table.o, table.State(), pair)
      modifies table, table.dataBlock, table.indexBlock, filter
      ensures Valid() && table.State() == AddPair(table.o, old(table.State()), pair)
    {
      AddCalls(table.o, table.State(), pair);
      AddToBoth(pair);
      StartIfFlushed();
    }

    /** The filter learns of the key before the table gets the pair. */
    method AddToBoth(pair: Pair)
      requires table.Valid() && filter.Valid() && CanAdd(table.o, table.State(), pair)
      modifies table, table.dataBlock, table.indexBlock, filter
      ensures table.Valid() && filter.Valid()
      ensures table.State() == AddPair(table.o, old(table.State()), pair)
      ensures filter.windows == AfterKey(old(filter.windows), pair.key)
    {
      filter.AddKey(pair.key);
      table.Add(pair);
    }

    /** After a flush the filter learns of the next block. */
    method StartIfFlushed()
      requires table.Valid() && filter.Valid() && |table.groups| == |table.handles|
      requires Told(table.State()) == if table.data == [] then AfterStart(filter.windows, |table.file|)
        else filter.windows
      modifies filter
      ensures Valid() && table.State() == old(table.State())
    {
      var flushed := HasNoData(table);
      if flushed {
        filter.StartBlock(|table.file|);
      }
    }

    method Flush()
      requires Valid() && HasRoom(table.file, BlockOf(table.data, table.o.interval))
      modifies table, table.dataBlock, filter
      ensures Valid() && table.State() == FlushBlock(table.o, old(table.State()))
    {
      var empty := HasNoData(table);
      if !empty {
        FlushIsStartBlock(table.o, table.State());
        table.Flush();
        filter.StartBlock(|table.file|);
      }
    }

    /** The filter block, the metaindex that lists it, the index, the footer. */
    method WriteTail(name: Bytes) returns (file: Bytes)
      requires Valid() && CanWriteFiltered(table.o, filter.policy, table.State(), name)
      modifies table, table.indexBlock, filter
      ensures file == FilteredTail(table.o, filter.policy, old(table.State()), name)
    {
      var filterBlock := filter.Finish();
      var handle := table.WriteRawBlock(filterBlock);
      file := table.WriteTail([FilterEntry(name, handle)]);
    }

    method Finish(name: Bytes) returns (file: Bytes)
      requires Valid() && CanFinishFiltered(table.o, filter.policy, table.State(), name)
      modifies table, table.dataBlock, table.indexBlock, filter
      ensures file == FilteredTail(table.o, filter.policy, FlushBlock(table.o, old(table.State())), name)
    {
      Flush();
      file := WriteTail(name);
    }
  }

  // ---------------------------------------------------------------------
  // Building and looking up
  // ---------------------------------------------------------------------

  ghost predicate Ordered(o: Options, st: TableState, pairs: seq<Pair>) {
    Good(o, st, pairs) && InOrder(st.file, st.handles)
  }

  method AddRest(builder: FilteredTableBuilder, ghost done: seq<Pair>, pairs: seq<Pair>, ghost name: Bytes)
    requires builder.Valid() && Ordered(builder.table.o, builder.table.State(), done)
    requires CanBuildFiltered(builder.table.o, builder.filter.policy, builder.table.State(), name, pairs)
    modifies builder.table, builder.table.dataBlock, builder.table.indexBlock, builder.filter
    ensures builder.Valid()
    ensures CanFinishFiltered(builder.table.o, builder.filter.policy, builder.table.State(), name)
    ensures Ordered(builder.table.o, builder.table.State(), done + pairs)
    decreases |pairs|
  {
    OneAtATime(done, pairs);
    if pairs != [] {
      AddKeepsGood(builder.table.o, builder.table.State(), done, pairs[0]);
      AddKeepsOrder(builder.table.o, builder.table.State(), pairs[0]);
      builder.Add(pairs[0]);
      AddRest(builder, done + [pairs[0]], pairs[1..], name);
    }
  }

  function LayoutOfState(st: TableState): TableLayout {
    TableLayout(st.groups, st.handles, FinalIndex(st))
  }

  /** The file that a filtered build leaves is a table with a sound filter in it. */
  lemma FilteredFileIsTable(o: Options, b: Filters.Bloom, st: TableState, name: Bytes, pairs: seq<Pair>)
    requires Ordered(o, st, pairs) && st.data == [] && Ascending(InternalRank, pairs)
    requires CanWriteFiltered(o, InternalPolicy(b), st, name)
    ensures IsTable(o, FilteredTail(o, InternalPolicy(b), st, name), LayoutOfState(st), pairs)
    ensures |st.groups| == |st.handles|
    ensures NoFalseNegatives(MayMatch(b, FilterBlockAt(InternalPolicy(b), st)), LayoutOfState(st))
  {
    FilteredTailOpens(o, InternalPolicy(b), st, name);
    FlushedIsTable(o, st, FilteredTail(o, InternalPolicy(b), st, name), pairs);
    FilterOfTableIsSound(b, st, FinalIndex(st));
  }

  /** Every step of building a filtered table fits in the format. */
  predicate CanBuildFiltered(o: Options, p: Policy, st: TableState, name: Bytes, pairs: seq<Pair>)
    decreases |pairs|
  {
    if pairs == [] then CanFinishFiltered(o, p, st, name)
    else CanAdd(o, st, pairs[0]) && CanBuildFiltered(o, p, AddPair(o, st, pairs[0]), name, pairs[1..])
  }

  /** Building a table with a filter from a sorted list. */
  method BuildFilteredTable(o: Options, b: Filters.Bloom, name: Bytes, pairs: seq<Pair>)
    returns (file: Bytes, ghost st: TableState)
    requires o.interval >= 1 && Ascending(InternalRank, pairs)
    requires CanBuildFiltered(o, InternalPolicy(b), EMPTY_TABLE, name, pairs)
    ensures Ordered(o, st, pairs) && st.data == [] && CanWriteFiltered(o, InternalPolicy(b), st, name)
    ensures file == FilteredTail(o, InternalPolicy(b), st, name)
  {
    var builder := new FilteredTableBuilder(o, b);
    EmptyIsGood(o);
    AddRest(builder, [], pairs, name);
    assert [] + pairs == pairs;
    FlushKeepsGood(o, builder.table.State(), pairs);
    FlushKeepsOrder(o, builder.table.State());
    st := FlushBlock(o, builder.table.State());
    file := builder.Finish(name);
  }

  /** The filter found in a filtered table. */
  method FindFilter(o: Options, b: Filters.Bloom, name: Bytes, file: Bytes, ghost st: TableState) returns (r: Bytes)
    requires o.interval >= 1 && CanWriteFiltered(o, InternalPolicy(b), st, name)
    requires file == FilteredTail(o, InternalPolicy(b), st, name)
    ensures r == FilterBlockAt(InternalPolicy(b), st)
  {
    ghost var filterBlock := FilterBlockAt(InternalPolicy(b), st);
    FilteredTailOpens(o, InternalPolicy(b), st, name);
    var found := ReadFilter(o, file, name, Handle(|st.file|, |filterBlock|), filterBlock);
    r := found.value;
  }

  /** A lookup in a filtered table. */
  method GetFiltered(o: Options, b: Filters.Bloom, name: Bytes, file: Bytes, user: Bytes, sequence: SequenceNumber,
                     ghost st: TableState, ghost pairs: seq<Pair>)
    returns (r: Option<Pair>)
    requires Ordered(o, st, pairs) && st.data == [] && Ascending(InternalRank, pairs)
    requires CanWriteFiltered(o, InternalPolicy(b), st, name) && file == FilteredTail(o, InternalPolicy(b), st, name)
    ensures IsNewestOf(pairs, user, PackSequenceAndType(sequence, TypeValue), r)
  {
    var filter := FindFilter(o, b, name, file, st);
    FilteredFileIsTable(o, b, st, name, pairs);
    FilteredTailOpens(o, InternalPolicy(b), st, name);
    r := Get(o, file, MayMatch(b, filter), user, sequence, LayoutOfState(st), pairs);
  }

  /** A table written and then searched through the filter found in it answers as
      a scan of the list would. */
  method WriteThenGet(o: Options, b: Filters.Bloom, name: Bytes, pairs: seq<Pair>, user: Bytes,
                      sequence: SequenceNumber)
    returns (r: Option<Pair>)
    requires o.interval >= 1 && Ascending(InternalRank, pairs)
    requires CanBuildFiltered(o, InternalPolicy(b), EMPTY_TABLE, name, pairs)
    ensures IsNewestOf(pairs, user, PackSequenceAndType(sequence, TypeValue), r)
  {
    var file;
    ghost var st;
    file, st := BuildFilteredTable(o, b, name, pairs);
    r := GetFiltered(o, b, name, file, user, sequence, st, pairs);
  }
}
