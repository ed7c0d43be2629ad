/** Reading a table: the lookup that opens a single block, and the iterator
    that walks all blocks through the index. */
module TableReaders {
  import opened InternalKeys
  import opened Coding
  import opened Cursors
  import opened Blocks
  import opened IndexKeys
  import opened Tables

  // ---------------------------------------------------------------------
  // What the index says
  // ---------------------------------------------------------------------

  lemma RankUsers(a: Bytes, b: Bytes)
    requires InternalRank(a) <= InternalRank(b)
    ensures UserOf(a) == UserOf(b) || BytesLess(UserOf(a), UserOf(b))
  {
    InternalRankOrder(b, a);
    BytesLessTotal(UserOf(a), UserOf(b));
  }

  /** The last pair of a group, in the flat list. */
  lemma LastInFlat(groups: seq<seq<Pair>>, i: nat)
    requires i < |groups| && groups[i] != []
    ensures Start(groups, i + 1) == Start(groups, i) + |groups[i]| <= |Flatten(groups)|
    ensures Flatten(groups)[Start(groups, i + 1) - 1].key == LastKey(groups[i])
  {
    FlatAt(groups, i, |groups[i]| - 1);
    StartNext(groups, i);
  }

  ghost predicate SplitsAt(rank: Rank, pairs: seq<Pair>, n: nat, key: Bytes) {
    forall p :: 0 <= p < |pairs| ==>
      if p < n then rank(pairs[p].key) <= rank(key) else rank(key) < rank(pairs[p].key)
  }

  /** Each index key is at or after all keys of its group and before all later ones. */
  ghost predicate IndexSplits(rank: Rank, groups: seq<seq<Pair>>, index: seq<Pair>, pairs: seq<Pair>) {
    && |index| == |groups|
    && Flatten(groups) == pairs
    && forall i :: 0 <= i < |groups| ==> SplitsAt(rank, pairs, Start(groups, i + 1), index[i].key)
  }

  /** Each index key is at or after all keys of its block and before all keys
      of the next. */
  lemma IndexKeySplits(t: TableLayout, pairs: seq<Pair>, i: nat)
    requires Indexed(t, pairs) && i < |t.groups|
    ensures SplitsAt(InternalRank, pairs, Start(t.groups, i + 1), t.index[i].key)
  {
    var key, next, last := t.index[i].key, Start(t.groups, i + 1), LastKey(t.groups[i]);
    LastInFlat(t.groups, i);
    assert pairs[next - 1].key == last;
    if i + 1 < |t.groups| {
      assert IndexEntryOk(t.groups, t.handles, t.index, pairs, i);
      InternalRankOrder(last, pairs[next].key);
      SeparatorOrder(last, key, pairs[next].key);
    } else {
      assert t.groups[..i + 1] == t.groups;
      InternalRankOrder(last, key);
    }
    KeySplits(InternalRank, pairs, next, key);
  }

  lemma KeySplits(rank: Rank, pairs: seq<Pair>, n: nat, key: Bytes)
    requires Ascending(rank, pairs) && 0 < n <= |pairs|
    requires rank(pairs[n - 1].key) <= rank(key)
    requires n < |pairs| ==> rank(key) < rank(pairs[n].key)
    ensures SplitsAt(rank, pairs, n, key)
  {
  }

  lemma TableIndexSplits(t: TableLayout, pairs: seq<Pair>)
    requires Indexed(t, pairs)
    ensures IndexSplits(InternalRank, t.groups, t.index, pairs)
  {
    forall i | 0 <= i < |t.groups|
      ensures SplitsAt(InternalRank, pairs, Start(t.groups, i + 1), t.index[i].key)
    {
      IndexKeySplits(t, pairs, i);
    }
  }

  lemma NonemptyStarts(groups: seq<seq<Pair>>, i: nat, j: nat)
    requires i < j <= |groups| && forall k :: 0 <= k < |groups| ==> groups[k] != []
    ensures Start(groups, i) < Start(groups, j) <= |Flatten(groups)|
  {
    StartNext(groups, i);
    StartsAscend(groups, i + 1, j);
    StartsAscend(groups, j, |groups|);
    assert groups[..|groups|] == groups;
  }

  lemma IndexAscends(rank: Rank, groups: seq<seq<Pair>>, index: seq<Pair>, pairs: seq<Pair>)
    requires IndexSplits(rank, groups, index, pairs) && forall i :: 0 <= i < |groups| ==> groups[i] != []
    ensures Ascending(rank, index)
  {
    forall i, j | 0 <= i < j < |index| ensures rank(index[i].key) < rank(index[j].key) {
      NonemptyStarts(groups, i + 1, j + 1);
      var p := Start(groups, i + 1);
      assert SplitsAt(rank, pairs, Start(groups, i + 1), index[i].key);
      assert SplitsAt(rank, pairs, Start(groups, j + 1), index[j].key);
      assert rank(index[i].key) < rank(pairs[p].key);
    }
  }

  lemma GroupAscends(groups: seq<seq<Pair>>, i: nat)
    requires i < |groups| && Ascending(InternalRank, Flatten(groups))
    ensures Ascending(InternalRank, groups[i])
  {
    forall j, k | 0 <= j < k < |groups[i]| ensures InternalRank(groups[i][j].key) < InternalRank(groups[i][k].key) {
      FlatAt(groups, i, j);
      FlatAt(groups, i, k);
    }
  }

  /** The index key of a block stands between its last pair and the next block's first. */
  lemma SeparatorAfter(t: TableLayout, pairs: seq<Pair>, i: nat)
    requires Indexed(t, pairs) && i + 1 < |t.groups|
    ensures var n := Start(t.groups, i + 1);
      && 0 < n < |pairs| && t.groups[i] != [] && pairs[n - 1].key == LastKey(t.groups[i])
      && Separates(pairs[n - 1].key, t.index[i].key, pairs[n].key)
  {
    LastInFlat(t.groups, i);
    assert IndexEntryOk(t.groups, t.handles, t.index, pairs, i);
  }

  lemma MoreGroups(groups: seq<seq<Pair>>, i: nat, p: nat)
    requires i < |groups| && Start(groups, i + 1) <= p < |Flatten(groups)|
    ensures i + 1 < |groups|
  {
    assert groups[..|groups|] == groups;
  }

  lemma BeyondSeparator(pairs: seq<Pair>, n: nat, p: nat, key: Bytes, k: Bytes)
    requires Ascending(InternalRank, pairs) && 0 < n <= p < |pairs|
    requires Separates(pairs[n - 1].key, key, pairs[n].key) && InternalRank(k) <= InternalRank(key)
    requires InternalRank(pairs[n - 1].key) < InternalRank(k) || UserOf(pairs[n - 1].key) != UserOf(k)
    ensures UserOf(pairs[p].key) != UserOf(k)
  {
    var last, next := pairs[n - 1].key, pairs[n].key;
    RankUsers(next, pairs[p].key);
    RankUsers(k, key);
    RankUsers(last, pairs[p].key);
    UserBetween(UserOf(last), UserOf(key), UserOf(next), UserOf(pairs[p].key), UserOf(k), key == last);
  }

  lemma UserBetween(last: Bytes, key: Bytes, next: Bytes, p: Bytes, k: Bytes, same: bool)
    requires (same && key == last && k != last && (k == key || BytesLess(k, key)))
          || (!same && BytesLess(key, next) && (k == key || BytesLess(k, key)))
    requires next == p || BytesLess(next, p)
    requires last == p || BytesLess(last, p)
    ensures p != k
  {
    BytesLessTotal(k, key);
    BytesLessTotal(k, next);
    BytesLessTotal(k, last);
    if p == k {
      BytesLessTotal(k, k);
      if same {
        BytesLessTotal(key, k);
      } else if BytesLess(k, key) {
        BytesLessTransitive(k, key, next);
        BytesLessTotal(next, k);
      } else {
        BytesLessTotal(next, k);
      }
    }
  }

  // ---------------------------------------------------------------------
  // InternalGet
  // ---------------------------------------------------------------------

  /** Seeking, and the pair found. */
  method SeekPair(it: BlockIter, k: Bytes) returns (r: Option<Pair>)
    requires it.Valid()
    modifies it
    ensures var p := FirstAtLeast(it.rank, it.layout.pairs, k);
      r == if p < |it.layout.pairs| then Some(it.layout.pairs[p]) else None
  {
    it.Seek(k);
    r := None;
    if it.IsValid() {
      var key := it.Key();
      var value := it.Value();
      r := Some(Pair(key, value));
    }
  }

  /** Opening a block and seeking in it. */
  method SeekByRank(rank: Rank, contents: Bytes, k: Bytes, ghost pairs: seq<Pair>, ghost interval: nat)
    returns (r: Option<Pair>)
    requires interval >= 1 && Fits(pairs, interval) && contents == BlockOf(pairs, interval)
    requires Ascending(rank, pairs)
    ensures var p := FirstAtLeast(rank, pairs, k); r == if p < |pairs| then Some(pairs[p]) else None
  {
    FinishedStateIsBlock(pairs, interval);
    OpenFinished(contents, LayoutOf(pairs, interval));
    var (restarts, numRestarts) := OpenBlock(contents).value;
    var it := new BlockIter(rank, contents, restarts, numRestarts, LayoutOf(pairs, interval));
    r := SeekPair(it, k);
  }

  method SeekInBlock(contents: Bytes, k: Bytes, ghost pairs: seq<Pair>, ghost interval: nat) returns (r: Option<Pair>)
    requires interval >= 1 && Fits(pairs, interval) && contents == BlockOf(pairs, interval)
    requires Ascending(InternalRank, pairs)
    ensures var p := FirstAtLeast(InternalRank, pairs, k); r == if p < |pairs| then Some(pairs[p]) else None
  {
    r := SeekByRank(InternalRank, contents, k, pairs, interval);
  }

  /** A filter never denies a user key that a block holds. */
  ghost predicate NoFalseNegatives(mayMatch: (nat, Bytes) -> bool, t: TableLayout)
    requires |t.groups| == |t.handles|
  {
    forall i, j, k :: 0 <= i < |t.groups| && 0 <= j < |t.groups[i]| && UserOf(k) == UserOf(t.groups[i][j].key) ==>
      mayMatch(t.handles[i].offset, k)
  }

  /** The first pair at or after `k`, or nothing although no pair of its user key is there. */
  ghost predicate Found(pairs: seq<Pair>, k: Bytes, r: Option<Pair>) {
    var first := FirstAtLeast(InternalRank, pairs, k);
    if r.Some? then first < |pairs| && r.value == pairs[first]
    else forall p :: first <= p < |pairs| ==> UserOf(pairs[p].key) != UserOf(k)
  }

  /** `group` stands in `pairs` from `start` on. */
  ghost predicate IsStretch(pairs: seq<Pair>, start: nat, group: seq<Pair>) {
    start + |group| <= |pairs| && forall j :: 0 <= j < |group| ==> group[j] == pairs[start + j]
  }

  /** Position `q` of the group is position `first` of the list, or both are past
      the group, which ends at `end`. */
  predicate Lands(pairs: seq<Pair>, group: seq<Pair>, q: nat, first: nat, end: nat) {
    if q < |group| then first < |pairs| && pairs[first] == group[q] else first == end
  }

  /** Seeking in one stretch of a list is seeking in the list, when all before
      the stretch is before `k` and all after is not. */
  lemma FirstByParts(rank: Rank, pairs: seq<Pair>, start: nat, group: seq<Pair>, k: Bytes)
    requires IsStretch(pairs, start, group)
    requires forall w :: 0 <= w < start ==> rank(pairs[w].key) < rank(k)
    requires start + |group| < |pairs| ==> rank(pairs[start + |group|].key) >= rank(k)
    ensures start + FirstAtLeast(rank, group, k) == FirstAtLeast(rank, pairs, k)
    ensures Lands(pairs, group, FirstAtLeast(rank, group, k), FirstAtLeast(rank, pairs, k), start + |group|)
  {
    var q := FirstAtLeast(rank, group, k);
    forall w | 0 <= w < start + q ensures rank(pairs[w].key) < rank(k) {
      if w >= start {
        SliceAt(pairs, start, group, w - start);
      }
    }
    if q < |group| {
      SliceAt(pairs, start, group, q);
    }
    FirstAtLeastIsUnique(rank, pairs, k, start + q);
  }

  lemma SliceAt(pairs: seq<Pair>, start: nat, group: seq<Pair>, j: nat)
    requires IsStretch(pairs, start, group) && j < |group|
    ensures pairs[start + j] == group[j]
  {
  }

  lemma GroupInFlat(groups: seq<seq<Pair>>, i: nat)
    requires i < |groups|
    ensures Start(groups, i + 1) == Start(groups, i) + |groups[i]|
    ensures IsStretch(Flatten(groups), Start(groups, i), groups[i])
  {
    StartNext(groups, i);
    StartsAscend(groups, i + 1, |groups|);
    assert groups[..|groups|] == groups;
    forall j | 0 <= j < |groups[i]| ensures groups[i][j] == Flatten(groups)[Start(groups, i) + j] {
      FlatAt(groups, i, j);
    }
  }

  lemma AllBeforeGroup(rank: Rank, groups: seq<seq<Pair>>, index: seq<Pair>, pairs: seq<Pair>, k: Bytes, i: nat)
    requires IndexSplits(rank, groups, index, pairs) && i <= FirstAtLeast(rank, index, k)
    ensures forall w :: 0 <= w < Start(groups, i) && w < |pairs| ==> rank(pairs[w].key) < rank(k)
  {
    if i > 0 {
      var before := i - 1;
      assert SplitsAt(rank, pairs, Start(groups, before + 1), index[before].key);
    }
  }

  /** The block the index leads to is where the whole file has `k`. */
  lemma FirstInGroup(rank: Rank, groups: seq<seq<Pair>>, index: seq<Pair>, pairs: seq<Pair>, k: Bytes, i: nat)
    requires IndexSplits(rank, groups, index, pairs) && i == FirstAtLeast(rank, index, k) < |index|
    ensures Start(groups, i) + FirstAtLeast(rank, groups[i], k) == FirstAtLeast(rank, pairs, k)
  {
    AllBeforeGroup(rank, groups, index, pairs, k, i);
    assert SplitsAt(rank, pairs, Start(groups, i + 1), index[i].key);
    GroupInFlat(groups, i);
    FirstByParts(rank, pairs, Start(groups, i), groups[i], k);
  }

  /** Past every index key there is nothing. */
  lemma PastAllBlocks(rank: Rank, groups: seq<seq<Pair>>, index: seq<Pair>, pairs: seq<Pair>, k: Bytes)
    requires IndexSplits(rank, groups, index, pairs) && FirstAtLeast(rank, index, k) == |index|
    ensures FirstAtLeast(rank, pairs, k) == |pairs|
  {
    AllBeforeGroup(rank, groups, index, pairs, k, |groups|);
    assert groups[..|groups|] == groups;
    FirstAtLeastIsUnique(rank, pairs, k, |pairs|);
  }

  lemma HitInGroup(rank: Rank, groups: seq<seq<Pair>>, index: seq<Pair>, pairs: seq<Pair>, k: Bytes, i: nat)
    requires IndexSplits(rank, groups, index, pairs) && i == FirstAtLeast(rank, index, k) < |index|
    ensures Lands(pairs, groups[i], FirstAtLeast(rank, groups[i], k), FirstAtLeast(rank, pairs, k),
                  Start(groups, i + 1))
  {
    AllBeforeGroup(rank, groups, index, pairs, k, i);
    assert SplitsAt(rank, pairs, Start(groups, i + 1), index[i].key);
    GroupInFlat(groups, i);
    FirstByParts(rank, pairs, Start(groups, i), groups[i], k);
  }

  /** Past a separator that is not before `k`, there is none of its user key. */
  lemma NothingBeyond(pairs: seq<Pair>, n: nat, key: Bytes, k: Bytes)
    requires Ascending(InternalRank, pairs) && 0 < n < |pairs|
    requires Separates(pairs[n - 1].key, key, pairs[n].key) && InternalRank(k) <= InternalRank(key)
    requires InternalRank(pairs[n - 1].key) < InternalRank(k) || UserOf(pairs[n - 1].key) != UserOf(k)
    ensures forall p :: n <= p < |pairs| ==> UserOf(pairs[p].key) != UserOf(k)
  {
    forall p | n <= p < |pairs| ensures UserOf(pairs[p].key) != UserOf(k) {
      BeyondSeparator(pairs, n, p, key, k);
    }
  }

  /** A lookup that the index sends to block `i`, but whose key is past the user
      key's entries there, has nothing to find in later blocks either. */
  lemma NothingFrom(t: TableLayout, pairs: seq<Pair>, i: nat, k: Bytes)
    requires Indexed(t, pairs) && i < |t.groups|
    requires InternalRank(k) <= InternalRank(t.index[i].key)
    requires InternalRank(LastKey(t.groups[i])) < InternalRank(k) || UserOf(LastKey(t.groups[i])) != UserOf(k)
    ensures forall p :: Start(t.groups, i + 1) <= p < |pairs| ==> UserOf(pairs[p].key) != UserOf(k)
  {
    var n := Start(t.groups, i + 1);
    if n < |pairs| {
      MoreGroups(t.groups, i, n);
      SeparatorAfter(t, pairs, i);
      NothingBeyond(pairs, n, t.index[i].key, k);
    }
  }

  /** The block that the index leads to gives the answer for the whole file. */
  lemma OneBlockSuffices(t: TableLayout, pairs: seq<Pair>, k: Bytes, i: nat, r: Option<Pair>)
    requires Indexed(t, pairs) && i == FirstAtLeast(InternalRank, t.index, k) < |t.index|
    requires var q := FirstAtLeast(InternalRank, t.groups[i], k);
      r == if q < |t.groups[i]| then Some(t.groups[i][q]) else None
    ensures Found(pairs, k, r)
  {
    TableIndexSplits(t, pairs);
    HitInGroup(InternalRank, t.groups, t.index, pairs, k, i);
    if r.None? {
      NothingFrom(t, pairs, i, k);
    }
  }

  /** A block whose filter denies the user key need not be opened. */
  lemma FilteredBlockSuffices(t: TableLayout, pairs: seq<Pair>, k: Bytes, i: nat)
    requires Indexed(t, pairs) && i == FirstAtLeast(InternalRank, t.index, k) < |t.index|
    requires forall j :: 0 <= j < |t.groups[i]| ==> UserOf(t.groups[i][j].key) != UserOf(k)
    ensures Found(pairs, k, None)
  {
    TableIndexSplits(t, pairs);
    FirstInGroup(InternalRank, t.groups, t.index, pairs, k, i);
    assert UserOf(LastKey(t.groups[i])) != UserOf(k);
    NothingFrom(t, pairs, i, k);
    NotInGroup(t.groups, i, UserOf(k));
  }

  lemma NotInGroup(groups: seq<seq<Pair>>, i: nat, user: Bytes)
    requires i < |groups| && forall j :: 0 <= j < |groups[i]| ==> UserOf(groups[i][j].key) != user
    ensures Start(groups, i + 1) <= |Flatten(groups)|
    ensures forall p :: Start(groups, i) <= p < Start(groups, i + 1) ==> UserOf(Flatten(groups)[p].key) != user
  {
    GroupInFlat(groups, i);
    forall p | Start(groups, i) <= p < Start(groups, i + 1) ensures UserOf(Flatten(groups)[p].key) != user {
      SliceAt(Flatten(groups), Start(groups, i), groups[i], p - Start(groups, i));
    }
  }

  /** `InternalGet` opens at most one data block. */
  method InternalGet(o: Options, file: Bytes, indexBlock: Bytes, mayMatch: (nat, Bytes) -> bool, k: Bytes,
                     ghost t: TableLayout, ghost pairs: seq<Pair>)
    returns (r: Option<Pair>)
    requires o.interval >= 1 && IsTable(o, file, t, pairs)
    requires Fits(t.index, 1) && indexBlock == BlockOf(t.index, 1)
    requires NoFalseNegatives(mayMatch, t)
    ensures Found(pairs, k, r)
  {
    TableIndexSplits(t, pairs);
    IndexAscends(InternalRank, t.groups, t.index, pairs);
    var entry := SeekInBlock(indexBlock, k, t.index, 1);
    if entry.None? {
      PastAllBlocks(InternalRank, t.groups, t.index, pairs, k);
      return None;
    }
    ghost var i := FirstAtLeast(InternalRank, t.index, k);
    HandleOfEntry(o, file, t, pairs, i);
    var handle := DecodeHandle(entry.value.value);
    if handle.None? {
      assert false;
    }
    if !mayMatch(handle.value.value.offset, k) {
      FilteredBlockSuffices(t, pairs, k, i);
      return None;
    }
    var contents := ReadBlock(o.crc, file, handle.value.value);
    if contents.None? {
      assert false;
    }
    GroupAscends(t.groups, i);
    r := SeekInBlock(contents.value, k, t.groups[i], o.interval);
    OneBlockSuffices(t, pairs, k, i, r);
  }

  lemma HandleOfEntry(o: Options, file: Bytes, t: TableLayout, pairs: seq<Pair>, i: nat)
    requires IsTable(o, file, t, pairs) && i < |t.index|
    ensures DecodeHandle(t.index[i].value) == Some(Decoded(t.handles[i], []))
    ensures Stored(o, file, t.groups[i], t.handles[i])
  {
    ValueOfEntry(t, pairs, i);
    HandleIsRead(t.handles[i]);
  }

  lemma ValueOfEntry(t: TableLayout, pairs: seq<Pair>, i: nat)
    requires Indexed(t, pairs) && i < |t.index|
    ensures t.index[i].value == EncodeHandle(t.handles[i])
  {
    assert i < |t.index| - 1 ==> IndexEntryOk(t.groups, t.handles, t.index, pairs, i);
  }

  /** What a lookup must return: the newest entry of `user` with a tag up to
      `tag`, or nothing when there is none. */
  ghost predicate IsNewestOf(pairs: seq<Pair>, user: Bytes, tag: Word64, r: Option<Pair>) {
    && (r.Some? ==> r.value in pairs && UserOf(r.value.key) == user && TagOf(r.value.key) <= tag)
    && (forall e :: e in pairs && UserOf(e.key) == user && TagOf(e.key) <= tag ==>
          r.Some? && TagOf(e.key) <= TagOf(r.value.key))
  }

  lemma FoundIsNewest(pairs: seq<Pair>, user: Bytes, tag: Word64, r: Option<Pair>)
    requires Ascending(InternalRank, pairs) && Found(pairs, EncodeInternal(user, tag), r)
    ensures IsNewestOf(pairs, user, tag, if r.Some? && UserOf(r.value.key) == user then r else None)
  {
    var k := EncodeInternal(user, tag);
    TagOfEncoded(user, tag);
    var first := FirstAtLeast(InternalRank, pairs, k);
    forall p | 0 <= p < |pairs| && UserOf(pairs[p].key) == user && TagOf(pairs[p].key) <= tag
      ensures r.Some? && UserOf(r.value.key) == user && TagOf(pairs[p].key) <= TagOf(r.value.key)
    {
      RankIsTag(pairs[p].key, k);
      SameUserBetween(pairs, k, first, p);
    }
    if r.Some? && UserOf(r.value.key) == user {
      RankIsTag(r.value.key, k);
    }
  }

  /** For one user key, rank order is tag order reversed. */
  lemma RankIsTag(a: Bytes, b: Bytes)
    requires UserOf(a) == UserOf(b)
    ensures InternalRank(a) >= InternalRank(b) <==> TagOf(a) <= TagOf(b)
  {
    InternalRankOrder(a, b);
    BytesLessTotal(UserOf(a), UserOf(b));
  }

  /** Between a key and an entry of the same user key there is only that user key, newest first. */
  lemma SameUserBetween(pairs: seq<Pair>, k: Bytes, first: nat, p: nat)
    requires Ascending(InternalRank, pairs) && first <= p < |pairs|
    requires InternalRank(pairs[first].key) >= InternalRank(k) && UserOf(pairs[p].key) == UserOf(k)
    ensures UserOf(pairs[first].key) == UserOf(k) && TagOf(pairs[p].key) <= TagOf(pairs[first].key)
  {
    RankUsers(k, pairs[first].key);
    RankUsers(pairs[first].key, pairs[p].key);
    BytesLessTotal(UserOf(pairs[first].key), UserOf(k));
    InternalRankOrder(pairs[p].key, pairs[first].key);
    BytesLessTotal(UserOf(pairs[first].key), UserOf(pairs[p].key));
  }

  /** Opening a finished table and looking up `user` at `sequence`: what is
      found counts when its user key matches. */
  method Get(o: Options, file: Bytes, mayMatch: (nat, Bytes) -> bool, user: Bytes, sequence: SequenceNumber,
             ghost t: TableLayout, ghost pairs: seq<Pair>)
    returns (r: Option<Pair>)
    requires o.interval >= 1 && IsTable(o, file, t, pairs)
    requires Fits(t.index, 1) && OpenTable(o.crc, file) == Some(BlockOf(t.index, 1))
    requires NoFalseNegatives(mayMatch, t)
    ensures IsNewestOf(pairs, user, PackSequenceAndType(sequence, TypeValue), r)
  {
    var indexBlock := OpenTable(o.crc, file).value;
    var tag := PackSequenceAndType(sequence, TypeValue);
    r := InternalGet(o, file, indexBlock, mayMatch, EncodeInternal(user, tag), t, pairs);
    FoundIsNewest(pairs, user, tag, r);
    if r.Some? && UserOf(r.value.key) != user {
      r := None;
    }
  }
}
