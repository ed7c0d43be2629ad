/** The filter block of a table: one filter for every 2 KB window of the file,
    over the keys of the data blocks that start in that window. */
module FilterBlocks {
  import opened InternalKeys
  import opened Coding

  const FILTER_BASE_LG: Byte := 11
  const FILTER_BASE: nat := 2048

  /** Any filter policy. */
  datatype Policy = Policy(create: seq<Bytes> -> Bytes, mayMatch: (Bytes, Bytes) -> bool)

  /** The filter of one window; none is created without keys. */
  function WindowFilter(p: Policy, keys: seq<Bytes>): Bytes {
    if keys == [] then [] else p.create(keys)
  }

  // ---------------------------------------------------------------------
  // What the calls add up to
  // ---------------------------------------------------------------------

  /** The keys of each finished window, and those of the open one. */
  datatype Windows = Windows(done: seq<seq<Bytes>>, open: seq<Bytes>)

  const NO_WINDOWS: Windows := Windows([], [])

  function AfterFilter(w: Windows): Windows {
    Windows(w.done + [w.open], [])
  }

  function AfterStart(w: Windows, offset: nat): Windows
    decreases offset / FILTER_BASE - |w.done|
  {
    if offset / FILTER_BASE > |w.done| then AfterStart(AfterFilter(w), offset) else w
  }

  function AfterKey(w: Windows, key: Bytes): Windows {
    w.(open := w.open + [key])
  }

  function FinishWindows(w: Windows): Windows {
    if w.open != [] then AfterFilter(w) else w
  }

  /** The bytes of the filters, one after another. */
  function Results(p: Policy, done: seq<seq<Bytes>>): Bytes {
    if done == [] then [] else Results(p, done[..|done| - 1]) + WindowFilter(p, done[|done| - 1])
  }

  /** The conversion of a size to 32 bits. */
  function Word(n: nat): Word32 {
    n % WORD32
  }

  lemma SmallWord(n: nat)
    requires n < WORD32
    ensures Word(n) == n
  {
  }

  /** Where each filter starts, in 32 bits. */
  function Offsets(p: Policy, done: seq<seq<Bytes>>): (r: seq<Word32>)
    ensures |r| == |done|
  {
    if done == [] then []
    else
      var before := done[..|done| - 1];
      Offsets(p, before) + [Word(|Results(p, before)|)]
  }

  function Tail(offset: Word32): (r: Bytes)
    ensures |r| == 5
  {
    EncodeFixed32(offset) + [FILTER_BASE_LG]
  }

  /** Filters, their offsets, the offset of the offsets, the window size. */
  function FilterBlockOf(p: Policy, done: seq<seq<Bytes>>): Bytes {
    Results(p, done) + (FixedList(Offsets(p, done)) + Tail(Word(|Results(p, done)|)))
  }

  // ---------------------------------------------------------------------
  // The builder
  // ---------------------------------------------------------------------

  function Flatten(keys: seq<Bytes>): Bytes {
    if keys == [] then [] else Flatten(keys[..|keys| - 1]) + keys[|keys| - 1]
  }

  function Starts(keys: seq<Bytes>): (r: seq<nat>)
    ensures |r| == |keys|
  {
    if keys == [] then [] else Starts(keys[..|keys| - 1]) + [|Flatten(keys[..|keys| - 1])|]
  }

  /** Key `i` lies between its start and the next. */
  lemma {:induction false} KeyAt(keys: seq<Bytes>, i: nat)
    requires i < |keys|
    ensures var ends := Starts(keys) + [|Flatten(keys)|];
      0 <= ends[i] <= ends[i + 1] <= |Flatten(keys)| && Flatten(keys)[ends[i]..ends[i + 1]] == keys[i]
  {
    var n := |keys| - 1;
    var before := keys[..n];
    if i < n {
      KeyAt(before, i);
      var ends := Starts(before) + [|Flatten(before)|];
      assert Flatten(keys)[ends[i]..ends[i + 1]] == Flatten(before)[ends[i]..ends[i + 1]];
      assert (Starts(keys) + [|Flatten(keys)|])[i + 1] == ends[i + 1];
    }
  }

  class FilterBlockBuilder {
    const policy: Policy
    var keys: Bytes
    var start: seq<nat>
    var result: Bytes
    var filterOffsets: seq<Word32>
    ghost var windows: Windows

    ghost predicate Valid()
      reads this
    {
      && keys == Flatten(windows.open) && start == Starts(windows.open)
      && result == Results(policy, windows.done) && filterOffsets == Offsets(policy, windows.done)
    }

    constructor (policy: Policy)
      ensures Valid() && windows == NO_WINDOWS && this.policy == policy
    {
      this.policy := policy;
      keys, start, result, filterOffsets := [], [], [], [];
      windows := NO_WINDOWS;
    }

    method StartBlock(blockOffset: nat)
      requires Valid()
      modifies this
      ensures Valid() && windows == AfterStart(old(windows), blockOffset)
    {
      var filterIndex := blockOffset / FILTER_BASE;
      while filterIndex > |filterOffsets|
        invariant Valid()
        invariant AfterStart(windows, blockOffset) == AfterStart(old(windows), blockOffset)
      {
        GenerateFilter();
      }
    }

    method AddKey(key: Bytes)
      requires Valid()
      modifies this
      ensures Valid() && windows == AfterKey(old(windows), key)
    {
      start := start + [|keys|];
      keys := keys + key;
      windows := AfterKey(windows, key);
      assert windows.open[..|windows.open| - 1] == old(windows.open);
    }

    method GenerateFilter()
      requires Valid()
      modifies this
      ensures Valid() && windows == AfterFilter(old(windows))
    {
      assert (windows.done + [windows.open])[..|windows.done|] == windows.done;
      if start == [] {
        filterOffsets := filterOffsets + [Word(|result|)];
      } else {
        var tmpKeys := ListKeys();
        filterOffsets := filterOffsets + [Word(|result|)];
        result := result + policy.create(tmpKeys);
        keys, start := [], [];
      }
      windows := AfterFilter(windows);
    }

    /** The list of keys in the flat string. */
    method ListKeys() returns (tmpKeys: seq<Bytes>)
      requires Valid()
      ensures tmpKeys == windows.open
    {
      var ends := start + [|keys|];
      tmpKeys := [];
      for i := 0 to |start|
        invariant tmpKeys == windows.open[..i]
      {
        KeyAt(windows.open, i);
        tmpKeys := tmpKeys + [keys[ends[i]..ends[i + 1]]];
      }
    }

    method Finish() returns (r: Bytes)
      requires Valid()
      modifies this
      ensures r == FilterBlockOf(policy, FinishWindows(old(windows)).done)
    {
      if start != [] {
        GenerateFilter();
      }
      var arrayOffset := Word(|result|);
      var offsets := PutOffsets(filterOffsets);
      result := result + (offsets + Tail(arrayOffset));
      r := result;
    }
  }

  method PutOffsets(offsets: seq<Word32>) returns (r: Bytes)
    ensures r == FixedList(offsets)
  {
    r := [];
    for i := 0 to |offsets|
      invariant r == FixedList(offsets[..i])
    {
      assert offsets[..i + 1][..i] == offsets[..i];
      r := r + EncodeFixed32(offsets[i]);
    }
    assert offsets[..|offsets|] == offsets;
  }

  // ---------------------------------------------------------------------
  // The reader
  // ---------------------------------------------------------------------

  /** The window size and the split into filters and offsets, when well-formed. */
  datatype Reader = Reader(data: Bytes, offsets: Bytes, num: nat, baseLg: nat)

  function OpenReader(contents: Bytes): (r: Reader)
    ensures r.num > 0 ==> |r.offsets| >= 4 * r.num + 4
  {
    var n := |contents|;
    if n < 5 then Reader([], [], 0, 0)
    else
      var lastWord := DecodeFixed32(contents[n - 5..]);
      if lastWord > n - 5 then Reader([], [], 0, contents[n - 1])
      else Reader(contents[..lastWord], contents[lastWord..], (n - 5 - lastWord) / 4, contents[n - 1])
  }

  /** `x >> n` */
  function Shift(x: nat, n: nat): nat {
    if n == 0 then x else Shift(x / 2, n - 1)
  }

  predicate KeyMayMatch(p: Policy, r: Reader, blockOffset: nat, key: Bytes)
    requires r.num > 0 ==> |r.offsets| >= 4 * r.num + 4
  {
    var index := Shift(blockOffset, r.baseLg);
    if index >= r.num then true
    else
      var start := DecodeFixed32(r.offsets[4 * index..]);
      var limit := DecodeFixed32(r.offsets[4 * (index + 1)..]);
      if start <= limit <= |r.data| then p.mayMatch(key, r.data[start..limit])
      else if start == limit then false
      else true
  }

  // ---------------------------------------------------------------------
  // Each window holds the keys of the blocks that start in it
  // ---------------------------------------------------------------------

  /** `StartBlock(offset)` followed by `AddKey` for each key. */
  datatype Block = Block(offset: nat, keys: seq<Bytes>) {
    function Window(): nat {
      offset / FILTER_BASE
    }
  }

  function AfterKeys(w: Windows, keys: seq<Bytes>): Windows {
    if keys == [] then w else AfterKey(AfterKeys(w, keys[..|keys| - 1]), keys[|keys| - 1])
  }

  function Run(blocks: seq<Block>): Windows {
    if blocks == [] then NO_WINDOWS
    else
      var last := blocks[|blocks| - 1];
      AfterKeys(AfterStart(Run(blocks[..|blocks| - 1]), last.offset), last.keys)
  }

  lemma RunLast(before: seq<Block>, last: Block)
    ensures Run(before + [last]) == AfterKeys(AfterStart(Run(before), last.offset), last.keys)
  {
    assert (before + [last])[..|before|] == before;
  }

  lemma OneMoreKey(before: seq<Block>, offset: nat, keys: seq<Bytes>, key: Bytes)
    ensures Run(before + [Block(offset, keys + [key])]) == AfterKey(Run(before + [Block(offset, keys)]), key)
  {
    RunLast(before, Block(offset, keys));
    RunLast(before, Block(offset, keys + [key]));
    assert (keys + [key])[..|keys|] == keys;
  }

  /** What `StartBlock` asserts of its callers. */
  predicate Legal(blocks: seq<Block>) {
    forall i, j :: 0 <= i < j < |blocks| ==> blocks[i].Window() <= blocks[j].Window()
  }

  function KeysIn(blocks: seq<Block>, w: nat): seq<Bytes> {
    if blocks == [] then []
    else
      var last := blocks[|blocks| - 1];
      KeysIn(blocks[..|blocks| - 1], w) + (if last.Window() == w then last.keys else [])
  }

  lemma {:induction false} AfterKeysAppends(w: Windows, keys: seq<Bytes>)
    ensures AfterKeys(w, keys) == w.(open := w.open + keys)
  {
    if keys != [] {
      var n := |keys| - 1;
      AfterKeysAppends(w, keys[..n]);
      assert (w.open + keys[..n]) + [keys[n]] == w.open + keys;
    }
  }

  /** The keys of window `w`, finished, open or not begun. */
  function WindowOf(s: Windows, w: nat): seq<Bytes> {
    if w < |s.done| then s.done[w] else if w == |s.done| then s.open else []
  }

  lemma {:induction false} StartKeepsWindows(s: Windows, offset: nat, w: nat)
    ensures WindowOf(AfterStart(s, offset), w) == WindowOf(s, w)
    ensures |AfterStart(s, offset).done| == if offset / FILTER_BASE > |s.done| then offset / FILTER_BASE else |s.done|
    decreases offset / FILTER_BASE - |s.done|
  {
    if offset / FILTER_BASE > |s.done| {
      StartKeepsWindows(AfterFilter(s), offset, w);
    }
  }

  lemma LegalPrefix(blocks: seq<Block>)
    requires Legal(blocks) && blocks != []
    ensures Legal(blocks[..|blocks| - 1])
  {
  }

  /** For every legal run, window `w` holds exactly the keys of the blocks that
      start in it, in the order added. */
  lemma {:induction false} WindowsHoldTheirBlocks(blocks: seq<Block>, w: nat)
    requires Legal(blocks)
    ensures WindowOf(Run(blocks), w) == KeysIn(blocks, w)
    ensures |Run(blocks).done| == if blocks == [] then 0 else blocks[|blocks| - 1].Window()
  {
    if blocks != [] {
      var n := |blocks| - 1;
      var last := blocks[n];
      LegalPrefix(blocks);
      WindowsHoldTheirBlocks(blocks[..n], w);
      assert n > 0 ==> blocks[n - 1].Window() <= last.Window();
      StartKeepsWindows(Run(blocks[..n]), last.offset, w);
      AfterKeysAppends(AfterStart(Run(blocks[..n]), last.offset), last.keys);
    }
  }

  lemma {:induction false} KeyIsInItsWindow(blocks: seq<Block>, i: nat, key: Bytes)
    requires i < |blocks| && key in blocks[i].keys
    ensures key in KeysIn(blocks, blocks[i].Window())
  {
    var n := |blocks| - 1;
    if i < n {
      assert blocks[..n][i] == blocks[i];
      KeyIsInItsWindow(blocks[..n], i, key);
    }
  }

  // ---------------------------------------------------------------------
  // Reading a finished filter block
  // ---------------------------------------------------------------------

  /** Filter `i` lies between its offset and the next. */
  lemma {:induction false} ResultAt(p: Policy, done: seq<seq<Bytes>>, i: nat)
    requires i < |done| && |Results(p, done)| < WORD32
    ensures var ends := Offsets(p, done) + [|Results(p, done)|];
      ends[i] <= ends[i + 1] <= |Results(p, done)|
      && Results(p, done)[ends[i]..ends[i + 1]] == WindowFilter(p, done[i])
  {
    var n := |done| - 1;
    var before := done[..n];
    var data := Results(p, before);
    assert Results(p, done) == data + WindowFilter(p, done[n]);
    SmallWord(|data|);
    if i < n {
      ResultAt(p, before, i);
      var ends := Offsets(p, before) + [|data|];
      assert Results(p, done)[ends[i]..ends[i + 1]] == data[ends[i]..ends[i + 1]];
      assert (Offsets(p, done) + [|Results(p, done)|])[i + 1] == ends[i + 1];
    }
  }

  /** What opening a finished block finds. */
  function ReaderOf(p: Policy, done: seq<seq<Bytes>>): Reader {
    var data := Results(p, done);
    Reader(data, FixedList(Offsets(p, done)) + Tail(Word(|data|)), |done|, FILTER_BASE_LG)
  }

  lemma OpenParts(data: Bytes, offsets: Bytes, num: nat)
    requires |offsets| == 4 * num && |data| < WORD32
    ensures OpenReader(data + (offsets + Tail(|data|))) == Reader(data, offsets + Tail(|data|), num, FILTER_BASE_LG)
  {
    var end := Tail(|data|);
    var contents := data + (offsets + end);
    assert contents[|contents| - 5..] == end;
    Fixed32RoundTrip(|data|, [FILTER_BASE_LG]);
    assert contents[..|data|] == data && contents[|data|..] == offsets + end;
  }

  lemma FinishedBlockOpens(p: Policy, done: seq<seq<Bytes>>)
    requires |Results(p, done)| < WORD32
    ensures OpenReader(FilterBlockOf(p, done)) == ReaderOf(p, done)
  {
    SmallWord(|Results(p, done)|);
    OpenParts(Results(p, done), FixedList(Offsets(p, done)), |done|);
  }

  lemma ShiftByFour(x: nat, n: nat)
    ensures Shift(x, n + 4) == Shift(x / 16, n)
  {
    assert Shift(x, n + 4) == Shift(x / 2, n + 3);
    assert Shift(x / 2, n + 3) == Shift(x / 2 / 2, n + 2);
    assert Shift(x / 2 / 2, n + 2) == Shift(x / 2 / 2 / 2, n + 1);
    assert Shift(x / 2 / 2 / 2, n + 1) == Shift(x / 2 / 2 / 2 / 2, n);
    assert x / 2 / 2 / 2 / 2 == x / 16;
  }

  lemma WindowSize(offset: nat)
    ensures Shift(offset, FILTER_BASE_LG) == offset / FILTER_BASE
  {
    ShiftByFour(offset, 7);
    ShiftByFour(offset / 16, 3);
    var b := offset / 16 / 16;
    assert Shift(b, 3) == Shift(b / 2, 2);
    assert Shift(b / 2, 2) == Shift(b / 2 / 2, 1);
    assert Shift(b / 2 / 2, 1) == Shift(b / 2 / 2 / 2, 0);
  }

  /** Both ends of filter `i`, as the reader decodes them; the end of the last
      is the offset of the offsets. */
  lemma EndsAreRead(offsets: seq<Word32>, size: Word32, i: nat)
    requires i < |offsets|
    ensures var code := FixedList(offsets) + Tail(size);
      DecodeFixed32(code[4 * i..]) == (offsets + [size])[i] &&
        DecodeFixed32(code[4 * (i + 1)..]) == (offsets + [size])[i + 1]
  {
    FixedListAt(offsets, i, Tail(size));
    if i + 1 < |offsets| {
      FixedListAt(offsets, i + 1, Tail(size));
    } else {
      assert (FixedList(offsets) + Tail(size))[4 * (i + 1)..] == Tail(size);
      Fixed32RoundTrip(size, [FILTER_BASE_LG]);
    }
  }

  /** A finished block answers as the policy does on the window's own filter,
      and says yes to offsets past the last window. */
  lemma ReaderIsExact(p: Policy, done: seq<seq<Bytes>>, offset: nat, key: Bytes)
    requires |Results(p, done)| < WORD32
    ensures KeyMayMatch(p, OpenReader(FilterBlockOf(p, done)), offset, key) <==>
            (offset / FILTER_BASE < |done| ==> p.mayMatch(key, WindowFilter(p, done[offset / FILTER_BASE])))
  {
    FinishedBlockOpens(p, done);
    WindowSize(offset);
    if offset / FILTER_BASE < |done| {
      WindowIsRead(p, done, offset / FILTER_BASE);
    }
  }

  /** What the reader cuts out for window `i` is its filter. */
  lemma WindowIsRead(p: Policy, done: seq<seq<Bytes>>, i: nat)
    requires i < |done| && |Results(p, done)| < WORD32
    ensures var r := ReaderOf(p, done);
      var start, limit := DecodeFixed32(r.offsets[4 * i..]), DecodeFixed32(r.offsets[4 * (i + 1)..]);
      start <= limit <= |r.data| && r.data[start..limit] == WindowFilter(p, done[i])
  {
    SmallWord(|Results(p, done)|);
    EndsAreRead(Offsets(p, done), |Results(p, done)|, i);
    ResultAt(p, done, i);
  }

  /** The policy accepts `key` whenever `stored` was among the keys it was given. */
  ghost predicate Accepts(p: Policy, stored: Bytes, key: Bytes) {
    forall ks :: stored in ks ==> p.mayMatch(key, p.create(ks))
  }

  /** After any legal run, a key that was added to a block is not denied there. */
  lemma FilterBlockHasNoFalseNegatives(p: Policy, blocks: seq<Block>, i: nat, stored: Bytes, key: Bytes)
    requires Legal(blocks) && i < |blocks| && stored in blocks[i].keys && Accepts(p, stored, key)
    requires |Results(p, FinishWindows(Run(blocks)).done)| < WORD32
    ensures KeyMayMatch(p, OpenReader(FilterBlockOf(p, FinishWindows(Run(blocks)).done)), blocks[i].offset, key)
  {
    var w := blocks[i].Window();
    WindowsHoldTheirBlocks(blocks, w);
    KeyIsInItsWindow(blocks, i, stored);
    ReaderIsExact(p, FinishWindows(Run(blocks)).done, blocks[i].offset, key);
  }
}
