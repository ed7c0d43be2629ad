/** Table files, versions (seven levels of files) and searching them. */
module Versions {
  import opened InternalKeys

  const MAX_MEM_COMPACT_LEVEL := 2

  /** A table file: its metadata and the sorted sequence of entries it stores. */
  datatype File = File(number: nat, smallest: InternalKey, largest: InternalKey, entries: seq<Entry>) {
    /** The metadata is right: the keys recorded are the first and the last. */
    ghost predicate Valid() {
      && entries != []
      && Sorted(entries)
      && smallest == entries[0].key
      && largest == entries[|entries| - 1].key
    }
  }

  type Levels = seq<seq<File>>

  ghost predicate AllValid(files: seq<File>) {
    forall f :: f in files ==> f.Valid()
  }

  function EntriesOf(files: seq<File>): set<Entry> {
    set f, e | f in files && e in f.entries :: e
  }

  function EntriesIn(levels: Levels): set<Entry> {
    set l, e | 0 <= l < |levels| && e in EntriesOf(levels[l]) :: e
  }

  lemma OneFile(f: File)
    ensures EntriesOf([f]) == Elements(f.entries)
  {
    assert forall x :: x in [f] <==> x == f;
  }

  /** Files of a level below 0: in order, with disjoint internal-key ranges.
      One user key may still span several neighbouring files. */
  predicate Disjoint(files: seq<File>) {
    && (forall i :: 0 <= i < |files| ==> !Before(files[i].largest, files[i].smallest))
    && (forall i, j :: 0 <= i < j < |files| ==> Before(files[i].largest, files[j].smallest))
  }

  /** For each user key, all of `a` is newer than all of `b`. */
  ghost predicate NewerThan(a: set<Entry>, b: set<Entry>) {
    forall x, y :: x in a && y in b && x.key.user == y.key.user ==> x.key.sequence > y.key.sequence
  }

  /** Level-0 files may overlap; the larger file number is the newer data. */
  ghost predicate NewestFileWins(files: seq<File>) {
    forall f, g :: f in files && g in files && f != g ==>
      && f.number != g.number
      && (f.number > g.number ==> NewerThan(Elements(f.entries), Elements(g.entries)))
  }

  /** The shape every version keeps. */
  ghost predicate Shape(levels: Levels) {
    && |levels| == NUM_LEVELS
    && (forall l :: 0 <= l < NUM_LEVELS ==> AllValid(levels[l]))
    && (forall l :: 1 <= l < NUM_LEVELS ==> Disjoint(levels[l]))
    && NewestFileWins(levels[0])
    && (forall i, j :: 0 <= i < j < NUM_LEVELS ==> NewerThan(EntriesOf(levels[i]), EntriesOf(levels[j])))
  }

  // ---------------------------------------------------------------------
  // Searching one sorted run (a memtable or a table file)
  // ---------------------------------------------------------------------

  /** Index of the first entry at or after `key`. */
  function SeekIndex(es: seq<Entry>, key: InternalKey): (i: nat)
    ensures i <= |es|
    ensures forall k :: 0 <= k < i ==> Before(es[k].key, key)
    ensures Sorted(es) ==> forall k :: i <= k < |es| ==> !Before(es[k].key, key)
  {
    if es == [] || !Before(es[0].key, key) then 0
    else
      var rest := es[1..];
      assert forall k :: 1 <= k < |es| ==> es[k] == rest[k - 1];
      1 + SeekIndex(rest, key)
  }

  /** Seek to the lookup key; the entry found counts when its user key matches. */
  function GetInRun(es: seq<Entry>, user: UserKey, s: SequenceNumber): Option<Entry> {
    var i := SeekIndex(es, LookupKey(user, s));
    if i < |es| && es[i].key.user == user then Some(es[i]) else None
  }

  lemma GetInRunFindsNewest(es: seq<Entry>, user: UserKey, s: SequenceNumber)
    requires Sorted(es)
    ensures FindsNewest(Elements(es), user, s, GetInRun(es, user, s))
  {
    var i := SeekIndex(es, LookupKey(user, s));
    var db := Elements(es);
    forall o | o in db && Visible(o, user, s)
      ensures i < |es| && es[i].key.user == user && o.key.sequence <= es[i].key.sequence
    {
      var k :| 0 <= k < |es| && es[k] == o;
      assert !(k < i);
      assert k == i || Before(es[i].key, es[k].key);
    }
    if i < |es| && es[i].key.user == user {
      assert es[i] in db && Visible(es[i], user, s);
    }
  }

  /** `key` lies between the metadata keys of `f`. */
  predicate InRange(f: File, key: InternalKey) {
    !Before(key, f.smallest) && !Before(f.largest, key)
  }

  lemma EntryInRange(f: File, e: Entry)
    requires f.Valid() && e in f.entries
    ensures InRange(f, e.key)
    ensures f.smallest.user <= e.key.user <= f.largest.user
  {
    var k :| 0 <= k < |f.entries| && f.entries[k] == e;
    assert k == 0 || Before(f.entries[0].key, f.entries[k].key);
    assert k == |f.entries| - 1 || Before(f.entries[k].key, f.entries[|f.entries| - 1].key);
  }

  lemma LastEntry(f: File) returns (e: Entry)
    requires f.Valid()
    ensures e in f.entries && e.key == f.largest
  {
    e := f.entries[|f.entries| - 1];
  }

  // ---------------------------------------------------------------------
  // Finding files
  // ---------------------------------------------------------------------

  /** Binary search for the first file whose largest key is at or after `key`. */
  method FindFile(files: seq<File>, key: InternalKey) returns (right: nat)
    requires Disjoint(files)
    ensures right <= |files|
    ensures forall i :: 0 <= i < right ==> Before(files[i].largest, key)
    ensures forall i :: right <= i < |files| ==> !Before(files[i].largest, key)
  {
    var left := 0;
    right := |files|;
    LargestAscend(files);
    while left < right
      invariant 0 <= left <= right <= |files|
      invariant forall i :: 0 <= i < left ==> Before(files[i].largest, key)
      invariant forall i :: right <= i < |files| ==> !Before(files[i].largest, key)
    {
      var mid := (left + right) / 2;
      if Before(files[mid].largest, key) {
        left := mid + 1;
      } else {
        right := mid;
      }
    }
  }

  lemma LargestAscend(files: seq<File>)
    requires Disjoint(files)
    ensures forall i, j :: 0 <= i < j < |files| ==>
      Before(files[i].largest, files[j].largest) && Before(files[i].smallest, files[j].smallest)
  {
  }

  predicate AfterFile(user: Option<UserKey>, f: File)
  {
    user.Some? && user.value > f.largest.user
  }

  predicate BeforeFile(user: Option<UserKey>, f: File)
  {
    user.Some? && user.value < f.smallest.user
  }

  /** The user-key range of `f` meets [lo, hi]; `None` is unbounded. */
  predicate Overlaps(f: File, lo: Option<UserKey>, hi: Option<UserKey>)
  {
    !AfterFile(lo, f) && !BeforeFile(hi, f)
  }

  method SomeFileOverlapsRange(disjointSorted: bool, files: seq<File>, lo: Option<UserKey>, hi: Option<UserKey>)
    returns (b: bool)
    requires disjointSorted ==> Disjoint(files)
    ensures b <==> exists f :: f in files && Overlaps(f, lo, hi)
  {
    if !disjointSorted {
      for i := 0 to |files|
        invariant forall k :: 0 <= k < i ==> !Overlaps(files[k], lo, hi)
      {
        if AfterFile(lo, files[i]) || BeforeFile(hi, files[i]) {
        } else {
          assert files[i] in files && Overlaps(files[i], lo, hi);
          return true;
        }
      }
      return false;
    }
    var index := 0;
    if lo.Some? {
      index := FindFile(files, InternalKey(lo.value, MAX_SEQUENCE, TypeValue));
    }
    LargestAscend(files);
    if index >= |files| {
      assert forall i :: 0 <= i < |files| ==> lo.Some? && AfterFile(lo, files[i]);
      return false;
    }
    b := !BeforeFile(hi, files[index]);
    assert files[index] in files;
  }

  // ---------------------------------------------------------------------
  // Version::Get
  // ---------------------------------------------------------------------

  /** The level-0 files whose user-key range holds `user`. */
  method CollectOverlapping(files: seq<File>, user: UserKey) returns (tmp: seq<File>)
    ensures forall f :: f in tmp <==> f in files && f.smallest.user <= user <= f.largest.user
  {
    tmp := [];
    for i := 0 to |files|
      invariant forall f :: f in tmp <==> f in files[..i] && f.smallest.user <= user <= f.largest.user
    {
      if user >= files[i].smallest.user && user <= files[i].largest.user {
        tmp := tmp + [files[i]];
      }
    }
  }

  /** Sorting by `NewestFirst`. */
  method SortNewestFirst(files: seq<File>) returns (sorted: seq<File>)
    ensures forall f :: f in sorted <==> f in files
    ensures forall i, j :: 0 <= i < j < |sorted| ==> sorted[i].number >= sorted[j].number
  {
    sorted := [];
    for i := 0 to |files|
      invariant forall f :: f in sorted <==> f in files[..i]
      invariant forall i, j :: 0 <= i < j < |sorted| ==> sorted[i].number >= sorted[j].number
    {
      var k := 0;
      while k < |sorted| && sorted[k].number >= files[i].number
        invariant 0 <= k <= |sorted|
        invariant forall j :: 0 <= j < k ==> sorted[j].number >= files[i].number
      {
        k := k + 1;
      }
      ghost var was := sorted;
      sorted := sorted[..k] + [files[i]] + sorted[k..];
      assert forall f :: f in was <==> f in was[..k] || f in was[k..];
    }
  }

  /** The files `Version::Get` reads at one level, in reading order. */
  method FilesToSearch(levels: Levels, level: nat, user: UserKey, s: SequenceNumber) returns (files: seq<File>)
    requires Shape(levels) && level < NUM_LEVELS
    ensures forall f :: f in files ==> f in levels[level]
    ensures SearchFinds(levels[level], files, user, s)
  {
    var all := levels[level];
    files := [];
    if level == 0 {
      var tmp := CollectOverlapping(all, user);
      files := SortNewestFirst(tmp);
      LevelZeroSearch(all, files, user, s);
    } else {
      var index := FindFile(all, LookupKey(user, s));
      if index < |all| {
        var f := all[index];
        if user < f.smallest.user {
        } else {
          files := [f];
        }
      }
      SortedLevelSearch(all, index, files, user, s);
    }
  }

  predicate NoneInFirst(files: seq<File>, n: nat, user: UserKey, s: SequenceNumber)
    requires n <= |files|
  {
    forall k, e :: 0 <= k < n && e in files[k].entries ==> !Visible(e, user, s)
  }

  /** The first hit among `files`, in order, is the newest entry of `all`; and
      without a hit there is none. */
  ghost predicate SearchFinds(all: seq<File>, files: seq<File>, user: UserKey, s: SequenceNumber) {
    && (forall i, e :: 0 <= i < |files| && NoneInFirst(files, i, user, s)
                       && IsNewest(Elements(files[i].entries), user, s, e) ==>
          IsNewest(EntriesOf(all), user, s, e))
    && (NoneInFirst(files, |files|, user, s) ==> NoneVisible(EntriesOf(all), user, s))
  }

  lemma LevelZeroSearch(all: seq<File>, files: seq<File>, user: UserKey, s: SequenceNumber)
    requires NewestFileWins(all) && AllValid(all)
    requires forall f :: f in files <==> f in all && f.smallest.user <= user <= f.largest.user
    requires forall i, j :: 0 <= i < j < |files| ==> files[i].number >= files[j].number
    ensures SearchFinds(all, files, user, s)
  {
    forall o | o in EntriesOf(all) && Visible(o, user, s)
      ensures exists k :: 0 <= k < |files| && o in files[k].entries
    {
      var f: File :| f in all && o in f.entries;
      EntryInRange(f, o);
      assert f in files;
    }
    forall i, e, o | 0 <= i < |files| && NoneInFirst(files, i, user, s)
                     && IsNewest(Elements(files[i].entries), user, s, e)
                     && o in EntriesOf(all) && Visible(o, user, s)
      ensures o.key.sequence <= e.key.sequence
    {
      var k :| 0 <= k < |files| && o in files[k].entries;
      assert k >= i;
      assert files[i] in files && files[k] in files;
      if files[k] != files[i] {
        assert NewerThan(Elements(files[i].entries), Elements(files[k].entries));
      }
    }
    forall i | 0 <= i < |files| ensures Elements(files[i].entries) <= EntriesOf(all) {
      assert files[i] in files;
    }
  }

  lemma SortedLevelSearch(all: seq<File>, index: nat, files: seq<File>, user: UserKey, s: SequenceNumber)
    requires Disjoint(all) && AllValid(all) && index <= |all|
    requires forall i :: 0 <= i < index ==> Before(all[i].largest, LookupKey(user, s))
    requires forall i :: index <= i < |all| ==> !Before(all[i].largest, LookupKey(user, s))
    requires files == if index < |all| && all[index].smallest.user <= user then [all[index]] else []
    ensures SearchFinds(all, files, user, s)
  {
    forall o | o in EntriesOf(all) && Visible(o, user, s)
      ensures files != []
      ensures o in files[0].entries ||
        exists e :: e in files[0].entries && Visible(e, user, s) && o.key.sequence <= e.key.sequence
    {
      var f: File :| f in all && o in f.entries;
      var k :| 0 <= k < |all| && all[k] == f;
      EntryInRange(f, o);
      assert k >= index;
      if k > index {
        var hit := all[index];
        assert hit in all;
        var last := LastEntry(hit);
        EntryInRange(hit, last);
        assert Before(hit.largest, f.smallest);
        assert Visible(last, user, s);
      }
    }
    if files != [] {
      assert all[index] in all;
      assert Elements(files[0].entries) <= EntriesOf(all);
    }
  }

  /** Searching level by level, newest level-0 file first, then one file per
      deeper level, finds exactly the newest entry visible at `s`. */
  method Get(levels: Levels, user: UserKey, s: SequenceNumber) returns (r: Option<Entry>)
    requires Shape(levels)
    ensures FindsNewest(EntriesIn(levels), user, s, r)
  {
    for level := 0 to NUM_LEVELS
      invariant forall l :: 0 <= l < level ==> NoneVisible(EntriesOf(levels[l]), user, s)
    {
      var files := FilesToSearch(levels, level, user, s);
      for i := 0 to |files|
        invariant NoneInFirst(files, i, user, s)
      {
        r := GetInRun(files[i].entries, user, s);
        assert files[i] in levels[level];
        GetInRunFindsNewest(files[i].entries, user, s);
        if r.Some? {
          NewestInLevels(levels, level, user, s, r.value);
          return;
        }
        assert forall e :: e in files[i].entries ==> e in Elements(files[i].entries);
      }
    }
    return None;
  }

  lemma NewestInLevels(levels: Levels, level: nat, user: UserKey, s: SequenceNumber, e: Entry)
    requires Shape(levels) && level < NUM_LEVELS
    requires forall l :: 0 <= l < level ==> NoneVisible(EntriesOf(levels[l]), user, s)
    requires IsNewest(EntriesOf(levels[level]), user, s, e)
    ensures IsNewest(EntriesIn(levels), user, s, e)
  {
    forall o | o in EntriesIn(levels) && Visible(o, user, s)
      ensures o.key.sequence <= e.key.sequence
    {
      var l :| 0 <= l < |levels| && o in EntriesOf(levels[l]);
      if l > level {
        assert NewerThan(EntriesOf(levels[level]), EntriesOf(levels[l]));
      }
    }
  }
}
