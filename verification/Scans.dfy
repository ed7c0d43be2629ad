/** Scanning a database: the user-facing iterator over the merge of memtables,
    level-0 files and whole levels shows what reads at its snapshot would find. */
module Scans {
  import opened InternalKeys
  import opened Versions
  import opened Inputs
  import opened Compactions
  import opened Shapes
  import opened Runs
  import opened Mergers
  import opened Databases
  import opened DbIterators

  // ---------------------------------------------------------------------
  // The sources of an iterator
  // ---------------------------------------------------------------------

  /** Each level from `l` on, read from one end to the other. */
  function WholeLevels(levels: Levels, l: nat): seq<seq<Entry>>
    requires l <= |levels|
    decreases |levels| - l
  {
    if l == |levels| then []
    else (if levels[l] == [] then [] else [Concat(levels[l])]) + WholeLevels(levels, l + 1)
  }

  function Sources(s: State): seq<seq<Entry>>
    requires |s.levels| == NUM_LEVELS
  {
    [s.mem] + (if s.imm.Some? then [s.imm.value] else []) + EntryLists(s.levels[0]) + WholeLevels(s.levels, 1)
  }

  function AllOf(lists: seq<seq<Entry>>): set<Entry> {
    set i, e | 0 <= i < |lists| && e in lists[i] :: e
  }

  /** Sorted lists without a common entry. */
  ghost predicate Apart(lists: seq<seq<Entry>>) {
    && (forall i :: 0 <= i < |lists| ==> Sorted(lists[i]))
    && (forall i, j :: 0 <= i < j < |lists| ==> Elements(lists[i]) !! Elements(lists[j]))
  }

  lemma AllOfAppend(a: seq<seq<Entry>>, b: seq<seq<Entry>>)
    ensures AllOf(a + b) == AllOf(a) + AllOf(b)
  {
    forall e | e in AllOf(a) + AllOf(b) ensures e in AllOf(a + b) {
      if e in AllOf(a) {
        var i :| 0 <= i < |a| && e in a[i];
        assert e in (a + b)[i];
      } else {
        var i :| 0 <= i < |b| && e in b[i];
        assert e in (a + b)[|a| + i];
      }
    }
  }

  lemma ApartAppend(a: seq<seq<Entry>>, b: seq<seq<Entry>>)
    requires Apart(a) && Apart(b) && AllOf(a) !! AllOf(b)
    ensures Apart(a + b)
  {
    forall i, j | 0 <= i < |a| && 0 <= j < |b| ensures Elements(a[i]) !! Elements(b[j]) {
      assert Elements(a[i]) <= AllOf(a) && Elements(b[j]) <= AllOf(b);
    }
  }

  lemma OneList(es: seq<Entry>)
    ensures AllOf([es]) == Elements(es)
    ensures Sorted(es) ==> Apart([es])
  {
    assert forall e :: e in es ==> e in [es][0];
  }

  lemma ApartCanBeMerged(lists: seq<seq<Entry>>, db: set<Entry>)
    requires Apart(lists) && AllOf(lists) <= db && UniqueSequences(db)
    ensures Mergeable(lists)
  {
    forall i, j, k, l | 0 <= i < j < |lists| && 0 <= k < |lists[i]| && 0 <= l < |lists[j]|
      ensures lists[i][k].key != lists[j][l].key
    {
      var x, y := lists[i][k], lists[j][l];
      assert x in Elements(lists[i]) && y in Elements(lists[j]);
      assert x in AllOf(lists) && y in AllOf(lists);
    }
  }

  // ---------------------------------------------------------------------
  // They are apart, and hold the whole database
  // ---------------------------------------------------------------------

  lemma {:induction false} ConcatIsSorted(files: seq<File>)
    requires AllValid(files) && Disjoint(files)
    ensures Sorted(Concat(files))
  {
    if files != [] {
      var n := |files| - 1;
      ConcatIsSorted(files[..n]);
      ConcatElements(files[..n]);
      assert files[n] in files;
      forall x, y | x in Concat(files[..n]) && y in files[n].entries ensures Before(x.key, y.key) {
        assert x in Elements(Concat(files[..n]));
        var f :| f in files[..n] && x in f.entries;
        FileBefore(files, f, x, y);
      }
      SortedAppend(Concat(files[..n]), files[n].entries);
    }
  }

  lemma FileBefore(files: seq<File>, f: File, x: Entry, y: Entry)
    requires AllValid(files) && Disjoint(files) && files != []
    requires f in files[..|files| - 1] && x in f.entries && y in files[|files| - 1].entries
    ensures Before(x.key, y.key)
  {
    var n := |files| - 1;
    var i :| 0 <= i < n && files[i] == f;
    assert f in files && files[n] in files;
    EntryInRange(f, x);
    EntryInRange(files[n], y);
  }

  lemma SortedAppend(a: seq<Entry>, b: seq<Entry>)
    requires Sorted(a) && Sorted(b) && forall x, y :: x in a && y in b ==> Before(x.key, y.key)
    ensures Sorted(a + b)
  {
  }

  /** The entries of the levels from `l` on. */
  function EntriesFrom(levels: Levels, l: nat): set<Entry>
    requires l <= |levels|
    decreases |levels| - l
  {
    if l == |levels| then {} else EntriesOf(levels[l]) + EntriesFrom(levels, l + 1)
  }

  lemma {:induction false} EntriesFromLevel(levels: Levels, l: nat, e: Entry)
    requires l <= |levels|
    ensures e in EntriesFrom(levels, l) <==> exists m :: l <= m < |levels| && e in EntriesOf(levels[m])
    decreases |levels| - l
  {
    if l < |levels| {
      EntriesFromLevel(levels, l + 1, e);
    }
  }

  lemma {:induction false} WholeLevelsAreApart(levels: Levels, l: nat)
    requires Shape(levels) && 1 <= l <= NUM_LEVELS
    ensures Apart(WholeLevels(levels, l)) && AllOf(WholeLevels(levels, l)) == EntriesFrom(levels, l)
    decreases NUM_LEVELS - l
  {
    if l < NUM_LEVELS {
      var rest := WholeLevels(levels, l + 1);
      WholeLevelsAreApart(levels, l + 1);
      ConcatElements(levels[l]);
      if levels[l] == [] {
        assert [] + rest == rest && EntriesOf(levels[l]) == {};
      } else {
        var es := Concat(levels[l]);
        ConcatIsSorted(levels[l]);
        OneList(es);
        AllOfAppend([es], rest);
        DeeperIsApart(levels, l);
        ApartAppend([es], rest);
      }
    }
  }

  lemma DeeperIsApart(levels: Levels, l: nat)
    requires Shape(levels) && l < NUM_LEVELS
    ensures EntriesOf(levels[l]) !! EntriesFrom(levels, l + 1)
  {
    forall e | e in EntriesOf(levels[l]) && e in EntriesFrom(levels, l + 1) ensures false {
      EntriesFromLevel(levels, l + 1, e);
      var m :| l + 1 <= m < |levels| && e in EntriesOf(levels[m]);
      NewerInShape(levels, l, m);
      NewerSharesNothing(EntriesOf(levels[l]), EntriesOf(levels[m]));
    }
  }

  lemma StoredSourcesAreApart(levels: Levels)
    requires Shape(levels) && NoDuplicates(levels[0])
    ensures var stored := EntryLists(levels[0]) + WholeLevels(levels, 1);
      Apart(stored) && AllOf(stored) == EntriesIn(levels)
  {
    var level0, deeper := EntryLists(levels[0]), WholeLevels(levels, 1);
    LevelSharesNothing(levels[0], levels[0]);
    forall i | 0 <= i < |level0| ensures Sorted(level0[i]) {
      assert levels[0][i] in levels[0];
    }
    ListedEntries(levels[0]);
    WholeLevelsAreApart(levels, 1);
    AllOfAppend(level0, deeper);
    DeeperIsApart(levels, 0);
    ApartAppend(level0, deeper);
    forall e ensures e in EntriesIn(levels) <==> e in EntriesFrom(levels, 0) {
      EntriesFromLevel(levels, 0, e);
    }
  }

  lemma MemorySourcesAreApart(s: State)
    requires NewestInMemory(s)
    ensures var memory := [s.mem] + (if s.imm.Some? then [s.imm.value] else []);
      Apart(memory) && AllOf(memory) == MemEntries(s)
  {
    OneList(s.mem);
    if s.imm.Some? {
      OneList(s.imm.value);
      AllOfAppend([s.mem], [s.imm.value]);
      NewerSharesNothing(Elements(s.mem), Elements(s.imm.value));
      ApartAppend([s.mem], [s.imm.value]);
    } else {
      assert [s.mem] + [] == [s.mem];
    }
  }

  /** The sources can be merged, and together are the database. */
  lemma SourcesAreDatabase(s: State)
    requires Inv(s) && Listed(s.levels)
    ensures Mergeable(Sources(s)) && AllOf(Sources(s)) == Db(s)
  {
    var memory := [s.mem] + (if s.imm.Some? then [s.imm.value] else []);
    var stored := EntryLists(s.levels[0]) + WholeLevels(s.levels, 1);
    assert Sources(s) == memory + stored;
    ListedHasNoDuplicates(s.levels);
    MemorySourcesAreApart(s);
    StoredSourcesAreApart(s.levels);
    NewerSharesNothing(MemEntries(s), EntriesIn(s.levels));
    ApartAppend(memory, stored);
    AllOfAppend(memory, stored);
    StoredIsUnique(s);
    ApartCanBeMerged(Sources(s), Db(s));
  }

  // ---------------------------------------------------------------------
  // The iterator
  // ---------------------------------------------------------------------

  /** `NewInternalIterator`: the merging iterator over all sources. */
  method NewInternalIterator(db: Database) returns (it: MergingIterator)
    requires db.Valid()
    ensures fresh(it) && it.Valid() && it.current.None?
    ensures Sorted(it.m.merged) && Elements(it.m.merged) == Db(db.State())
  {
    SourcesAreDatabase(db.State());
    var imm := if db.imm.Some? then [db.imm.value] else [];
    var lists := [db.mem] + imm + EntryLists(db.levels[0]) + WholeLevels(db.levels, 1);
    ghost var m := MergeExists(lists);
    MergedElements(lists, m);
    it := new MergingIterator(lists, m);
  }

  /** `NewIterator`: the user-facing iterator, moving the merging iterator.  Its
      view is, in key order, every binding a read at the snapshot finds, and no other. */
  method NewIterator(db: Database, snapshot: SequenceNumber) returns (it: DBIter)
    requires db.Valid()
    ensures fresh(it) && fresh(it.iter) && it.Valid() && it.Cursor() == None
    ensures forall u, v :: Binding(u, v) in View(it.entries, it.sequence) <==>
      Reads(Db(db.State()), u, snapshot, Some(v))
    ensures forall i, j :: 0 <= i < j < |View(it.entries, it.sequence)| ==>
      View(it.entries, it.sequence)[i].user < View(it.entries, it.sequence)[j].user
  {
    var internal := NewInternalIterator(db);
    StoredIsUnique(db.State());
    ViewIsSnapshot(internal.m.merged, snapshot);
    it := new DBIter(internal, snapshot);
  }

  /** At a live snapshot the scan agrees with the write history on every key that
      no compaction exposed. */
  lemma ScanAgreesWithHistory(s: State, snapshot: SequenceNumber, user: UserKey, v: Bytes)
    requires HistoryBounds(s) && AgreesOn(s, user) && (snapshot in s.snapshots || snapshot == s.lastSequence)
    ensures Reads(Db(s), user, snapshot, Some(v)) <==> Reads(s.history, user, snapshot, Some(v))
  {
    LiveIsRecent(s, snapshot);
    assert SameRead(s.history, Db(s), user, snapshot);
  }
}
