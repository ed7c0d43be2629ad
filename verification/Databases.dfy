/** The database object: its methods, running the algorithms of the other
    modules, take exactly the steps of the state machine in `Runs`. */
module Databases {
  import opened InternalKeys
  import opened Versions
  import opened Inputs
  import opened Compactions
  import opened Installs
  import opened Shapes
  import opened Runs
  import opened Mergers
  import opened Manifests

  // ---------------------------------------------------------------------
  // File numbers
  // ---------------------------------------------------------------------

  /** Every level is listed in order, and a file number names one file of one level. */
  ghost predicate Listed(levels: Levels) {
    && |levels| == NUM_LEVELS
    && (forall l :: 0 <= l < NUM_LEVELS ==> SortedBySmallest(levels[l]))
    && (forall l, m, f, g :: 0 <= l < NUM_LEVELS && 0 <= m < NUM_LEVELS && f in levels[l] && g in levels[m] ==>
          (f.number == g.number ==> l == m && f == g))
  }

  lemma LevelFacts(levels: Levels, l: nat)
    requires Listed(levels) && l < NUM_LEVELS
    ensures SortedBySmallest(levels[l]) && Identified(FilesOf(levels[l]))
  {
  }

  lemma SortedHasNoDuplicates(files: seq<File>)
    requires SortedBySmallest(files)
    ensures forall i, j :: 0 <= i < j < |files| ==> files[i] != files[j]
  {
    forall i, j | 0 <= i < j < |files| ensures files[i] != files[j] {
      assert BySmallest(files[i], files[j]);
    }
  }

  /** The edit of a compaction: delete the inputs, add the outputs one level down. */
  function InstallEdit(level: nat, in0: seq<File>, in1: seq<File>, outputs: seq<File>): Edit {
    Edit((set f | f in in0 :: (level, f.number)) + (set f | f in in1 :: (level + 1, f.number)),
         seq(|outputs|, i requires 0 <= i < |outputs| => (level + 1, outputs[i])))
  }

  lemma InstallEditAt(level: nat, in0: seq<File>, in1: seq<File>, outputs: seq<File>)
    ensures var e := InstallEdit(level, in0, in1, outputs);
      && DeletedAt(e, level) == Numbers(FilesOf(in0)) && AddedAt(e, level) == {}
      && DeletedAt(e, level + 1) == Numbers(FilesOf(in1)) && AddedAt(e, level + 1) == FilesOf(outputs)
      && (forall l: nat :: l != level && l != level + 1 ==> DeletedAt(e, l) == {} && AddedAt(e, l) == {})
  {
    var e := InstallEdit(level, in0, in1, outputs);
    forall n ensures n in DeletedAt(e, level) <==> n in Numbers(FilesOf(in0)) {
      assert n in DeletedAt(e, level) <==> (level, n) in e.deleted;
    }
    forall n ensures n in DeletedAt(e, level + 1) <==> n in Numbers(FilesOf(in1)) {
      assert n in DeletedAt(e, level + 1) <==> (level + 1, n) in e.deleted;
    }
    forall f ensures f in AddedAt(e, level + 1) <==> f in FilesOf(outputs) {
      if f in FilesOf(outputs) {
        var i :| 0 <= i < |outputs| && outputs[i] == f;
        assert e.added[i].1 == f;
      }
    }
  }

  /** Deleting by number deletes the chosen files. */
  lemma DeletedIsWithout(files: seq<File>, chosen: seq<File>)
    requires Identified(FilesOf(files)) && forall f :: f in chosen ==> f in files
    ensures SavedFiles(FilesOf(files), Numbers(FilesOf(chosen)), {}) == FilesOf(Without(files, chosen))
  {
    forall f ensures f in SavedFiles(FilesOf(files), Numbers(FilesOf(chosen)), {}) <==> f in Without(files, chosen) {
      if f in chosen {
        assert f.number in Numbers(FilesOf(chosen));
      }
    }
  }

  lemma DeletedAndAdded(files: seq<File>, chosen: seq<File>, outputs: seq<File>)
    requires Identified(FilesOf(files)) && forall f :: f in chosen ==> f in files
    requires Numbers(FilesOf(files)) !! Numbers(FilesOf(outputs))
    ensures SavedFiles(FilesOf(files), Numbers(FilesOf(chosen)) - Numbers(FilesOf(outputs)), FilesOf(outputs))
         == FilesOf(Without(files, chosen)) + FilesOf(outputs)
  {
    DeletedIsWithout(files, chosen);
    assert forall f :: f in files ==> f.number in Numbers(FilesOf(files));
    assert forall f :: f in outputs ==> f.number in Numbers(FilesOf(outputs));
    assert forall f :: f in chosen ==> f.number in Numbers(FilesOf(chosen));
  }

  lemma SavedFromFiles(after: seq<File>, kept: seq<File>, added: seq<File>)
    requires SortedBySmallest(after) && FilesOf(after) == FilesOf(kept) + FilesOf(added)
    ensures Saved(after, kept, added)
  {
    assert forall f :: f in after <==> f in FilesOf(after);
    assert forall f :: f in kept <==> f in FilesOf(kept);
    assert forall f :: f in added <==> f in FilesOf(added);
  }

  lemma UntouchedLevel(before: seq<File>, after: seq<File>)
    requires SortedBySmallest(before) && SortedBySmallest(after)
    requires FilesOf(after) == SavedFiles(FilesOf(before), {}, {})
    ensures after == before
  {
    assert forall f :: f in after <==> f in FilesOf(after);
    assert forall f :: f in before <==> f in FilesOf(before);
    SortedListIsUnique(after, before);
  }

  /** `InstallCompactionResults`, and the installation of a trivial move. */
  method Install(levels: Levels, level: nat, in0: seq<File>, in1: seq<File>, outputs: seq<File>) returns (v: Levels)
    requires Listed(levels) && level + 1 < NUM_LEVELS
    requires (forall f :: f in in0 ==> f in levels[level]) && (forall f :: f in in1 ==> f in levels[level + 1])
    requires Identified(FilesOf(outputs)) && Numbers(FilesOf(levels[level + 1])) !! Numbers(FilesOf(outputs))
    ensures Installed(levels, level, in0, in1, outputs, v)
    ensures forall l :: 0 <= l < NUM_LEVELS ==> SortedBySmallest(v[l])
  {
    var e := InstallEdit(level, in0, in1, outputs);
    InstallEditAt(level, in0, in1, outputs);
    EditLevelsExist(level, in0, in1, outputs);
    v := LogAndApply(levels, e);
    forall l | 0 <= l < NUM_LEVELS && l != level && l != level + 1 ensures v[l] == levels[l] {
      UntouchedLevel(levels[l], v[l]);
    }
    LevelFacts(levels, level);
    LevelFacts(levels, level + 1);
    DeletedIsWithout(levels[level], in0);
    DeletedAndAdded(levels[level + 1], in1, outputs);
    SavedFromFiles(v[level], Without(levels[level], in0), []);
    SavedFromFiles(v[level + 1], Without(levels[level + 1], in1), outputs);
  }

  lemma EditLevelsExist(level: nat, in0: seq<File>, in1: seq<File>, outputs: seq<File>)
    requires level + 1 < NUM_LEVELS
    ensures LevelsExist(InstallEdit(level, in0, in1, outputs))
  {
  }

  // ---------------------------------------------------------------------
  // Merging the inputs
  // ---------------------------------------------------------------------

  function EntryLists(files: seq<File>): (r: seq<seq<Entry>>)
    ensures |r| == |files| && forall i :: 0 <= i < |files| ==> r[i] == files[i].entries
  {
    seq(|files|, i requires 0 <= i < |files| => files[i].entries)
  }

  /** No entry is stored in two of the files. */
  ghost predicate NothingShared(files: seq<File>) {
    forall i, j :: 0 <= i < j < |files| ==> Elements(files[i].entries) !! Elements(files[j].entries)
  }

  lemma LevelSharesNothing(files: seq<File>, chosen: seq<File>)
    requires AllValid(files) && (NewestFileWins(files) || Disjoint(files))
    requires NoDuplicates(chosen) && forall f :: f in chosen ==> f in files
    ensures NothingShared(chosen)
  {
    forall i, j | 0 <= i < j < |chosen| ensures Elements(chosen[i].entries) !! Elements(chosen[j].entries) {
      var f, g := chosen[i], chosen[j];
      assert f in chosen && g in chosen && f != g;
      if NewestFileWins(files) {
        if f.number > g.number {
          NewerSharesNothing(Elements(f.entries), Elements(g.entries));
        } else {
          NewerSharesNothing(Elements(g.entries), Elements(f.entries));
        }
      } else {
        DisjointIsSeparated(files);
        SeparatedShareNothing(f, g);
      }
    }
  }

  lemma SeparatedShareNothing(f: File, g: File)
    requires f.Valid() && g.Valid() && Separated(f, g)
    ensures Elements(f.entries) !! Elements(g.entries)
  {
    forall e | e in f.entries && e in g.entries ensures false {
      EntryInRange(f, e);
      EntryInRange(g, e);
    }
  }

  lemma TogetherShareNothing(a: seq<File>, b: seq<File>)
    requires NothingShared(a) && NothingShared(b) && EntriesOf(a) !! EntriesOf(b)
    ensures NothingShared(a + b)
  {
    forall i, j | 0 <= i < |a| && 0 <= j < |b| ensures Elements(a[i].entries) !! Elements(b[j].entries) {
      assert a[i] in a && b[j] in b;
      assert Elements(a[i].entries) <= EntriesOf(a) && Elements(b[j].entries) <= EntriesOf(b);
    }
  }

  /** Input files can be merged: all their keys are different. */
  lemma InputsAreMergeable(files: seq<File>, db: set<Entry>)
    requires AllValid(files) && NothingShared(files) && EntriesOf(files) <= db && UniqueSequences(db)
    ensures Mergeable(EntryLists(files))
  {
    var lists := EntryLists(files);
    forall i | 0 <= i < |lists| ensures Sorted(lists[i]) {
      assert files[i] in files;
    }
    forall i, j, k, l | 0 <= i < j < |lists| && 0 <= k < |lists[i]| && 0 <= l < |lists[j]|
      ensures lists[i][k].key != lists[j][l].key
    {
      assert files[i] in files && files[j] in files;
      var x, y := lists[i][k], lists[j][l];
      assert x in files[i].entries && y in files[j].entries;
      assert x in EntriesOf(files) && y in EntriesOf(files);
      assert x in Elements(files[i].entries) && y in Elements(files[j].entries);
    }
  }

  lemma ListedEntries(files: seq<File>)
    ensures (set i, e | 0 <= i < |EntryLists(files)| && e in EntryLists(files)[i] :: e) == EntriesOf(files)
  {
    forall e | e in EntriesOf(files) ensures exists i :: 0 <= i < |files| && e in EntryLists(files)[i] {
      var f :| f in files && e in f.entries;
      var i :| 0 <= i < |files| && files[i] == f;
      assert e in EntryLists(files)[i];
    }
    forall i, e | 0 <= i < |files| && e in EntryLists(files)[i] ensures e in EntriesOf(files) {
      assert files[i] in files;
    }
  }

  /** `MakeInputIterator`, read from start to end. */
  method MergedInput(files: seq<File>, ghost db: set<Entry>) returns (input: seq<Entry>)
    requires AllValid(files) && NothingShared(files) && EntriesOf(files) <= db && UniqueSequences(db)
    ensures Sorted(input) && Elements(input) == EntriesOf(files)
  {
    InputsAreMergeable(files, db);
    ListedEntries(files);
    input := Mergers.ReadAll(EntryLists(files));
  }

  // ---------------------------------------------------------------------
  // A compaction
  // ---------------------------------------------------------------------

  lemma BothInputs(in0: seq<File>, in1: seq<File>)
    ensures EntriesOf(in0 + in1) == EntriesOf(in0) + EntriesOf(in1)
    ensures forall f :: f in in0 + in1 <==> f in in0 || f in in1
  {
  }

  lemma ChosenCanBeMerged(levels: Levels, level: nat, in0: seq<File>, in1: seq<File>)
    requires Shape(levels) && ChosenInputs(levels, level, in0, in1) && NoDuplicates(in0) && NoDuplicates(in1)
    ensures AllValid(in0 + in1) && NothingShared(in0 + in1)
    ensures EntriesOf(in0 + in1) == EntriesOf(in0) + EntriesOf(in1) && EntriesOf(in0 + in1) <= EntriesIn(levels)
  {
    InputsAreInLevels(levels, level, in0, in1);
    LevelsPart(levels, level);
    LevelsPart(levels, level + 1);
    BothInputs(in0, in1);
    LevelSharesNothing(levels[level], in0);
    LevelSharesNothing(levels[level + 1], in1);
    NewerInShape(levels, level, level + 1);
    NewerSharesNothing(EntriesOf(levels[level]), EntriesOf(levels[level + 1]));
    TogetherShareNothing(in0, in1);
  }

  lemma OutputsAreSurvivors(outputs: seq<File>, input: seq<Entry>, inputs: set<Entry>, levels: Levels, level: nat,
                            snapshot: SequenceNumber)
    requires Concat(outputs) == SurvivorList(input, |input|, levels, level, snapshot) && Elements(input) == inputs
    ensures EntriesOf(outputs) == Survivors(inputs, levels, level, snapshot)
  {
    ConcatElements(outputs);
    SurvivorsOfList(input, levels, level, snapshot);
  }

  /** Merging the inputs and compacting them: the surviving entries, cut into
      valid, disjoint, freshly numbered files. */
  method RunCompaction(levels: Levels, level: nat, in0: seq<File>, in1: seq<File>, snapshot: SequenceNumber, next: nat,
                       ghost db: set<Entry>)
    returns (outputs: seq<File>, next': nat)
    requires Shape(levels) && ChosenInputs(levels, level, in0, in1) && NoDuplicates(in0) && NoDuplicates(in1)
    requires EntriesIn(levels) <= db && UniqueSequences(db) && snapshot < MAX_SEQUENCE
    ensures AllValid(outputs) && Disjoint(outputs)
    ensures EntriesOf(outputs) == Survivors(EntriesOf(in0) + EntriesOf(in1), levels, level, snapshot)
    ensures OneVisible(EntriesOf(outputs), snapshot)
    ensures TombstonesNeeded(EntriesOf(outputs), levels, level, snapshot)
    ensures next <= next' && Numbered(outputs, next, next')
  {
    ChosenCanBeMerged(levels, level, in0, in1);
    var input := MergedInput(in0 + in1, db);
    var c := new Compaction(levels, level);
    outputs, next' := c.DoCompactionWork(input, snapshot, next);
    OutputsAreSurvivors(outputs, input, EntriesOf(in0) + EntriesOf(in1), levels, level, snapshot);
    ConcatElements(outputs);
  }

  // ---------------------------------------------------------------------
  // Keeping files listed
  // ---------------------------------------------------------------------

  /** An output number is new, or the output is the very file that moves down. */
  ghost predicate NumbersAreNew(levels: Levels, level: nat, in0: seq<File>, outputs: seq<File>)
    requires |levels| == NUM_LEVELS
  {
    forall o, l, f :: o in outputs && 0 <= l < NUM_LEVELS && f in levels[l] ==>
      (f.number == o.number ==> f == o && f in in0 && l == level)
  }

  lemma InstalledIsListed(before: Levels, level: nat, in0: seq<File>, in1: seq<File>, outputs: seq<File>, after: Levels)
    requires Listed(before) && level + 1 < NUM_LEVELS && Installed(before, level, in0, in1, outputs, after)
    requires forall l :: 0 <= l < NUM_LEVELS ==> SortedBySmallest(after[l])
    requires Identified(FilesOf(outputs)) && NumbersAreNew(before, level, in0, outputs)
    ensures Listed(after)
  {
    forall l, m, f, g | 0 <= l < NUM_LEVELS && 0 <= m < NUM_LEVELS && f in after[l] && g in after[m]
                        && f.number == g.number
      ensures l == m && f == g
    {
      InstalledFile(before, level, in0, in1, outputs, after, l, f);
      InstalledFile(before, level, in0, in1, outputs, after, m, g);
      assert f in outputs ==> f in FilesOf(outputs);
      assert g in outputs ==> g in FilesOf(outputs);
    }
  }

  /** Where a file of the new version comes from. */
  lemma InstalledFile(before: Levels, level: nat, in0: seq<File>, in1: seq<File>, outputs: seq<File>, after: Levels,
                      l: nat, f: File)
    requires |before| == NUM_LEVELS && level + 1 < NUM_LEVELS && Installed(before, level, in0, in1, outputs, after)
    requires l < NUM_LEVELS && f in after[l]
    ensures (f in before[l] && (l == level ==> f !in in0)) || (l == level + 1 && f in outputs)
  {
  }

  lemma FlushedIsListed(before: Levels, level: nat, file: File, after: Levels)
    requires Listed(before) && level < NUM_LEVELS && Flushed(before, level, file, after)
    requires forall l :: 0 <= l < NUM_LEVELS ==> SortedBySmallest(after[l])
    requires forall l, f :: 0 <= l < NUM_LEVELS && f in before[l] ==> f.number != file.number
    ensures Listed(after)
  {
    forall l, m, f, g | 0 <= l < NUM_LEVELS && 0 <= m < NUM_LEVELS && f in after[l] && g in after[m]
                        && f.number == g.number
      ensures l == m && f == g
    {
      FlushedFile(before, level, file, after, l, f);
      FlushedFile(before, level, file, after, m, g);
    }
  }

  lemma FlushedFile(before: Levels, level: nat, file: File, after: Levels, l: nat, f: File)
    requires |before| == NUM_LEVELS && level < NUM_LEVELS && Flushed(before, level, file, after)
    requires l < NUM_LEVELS && f in after[l]
    ensures f in before[l] || (l == level && f == file)
  {
  }

  // ---------------------------------------------------------------------
  // The database
  // ---------------------------------------------------------------------

  /** Inserting into a memtable. */
  method InsertEntry(mem: seq<Entry>, e: Entry) returns (r: seq<Entry>)
    requires Sorted(mem) && forall o :: o in mem ==> o.key != e.key
    ensures Sorted(r) && Elements(r) == Elements(mem) + {e}
  {
    var i := SeekIndex(mem, e.key);
    r := mem[..i] + [e] + mem[i..];
    forall k | i <= k < |mem| ensures Before(e.key, mem[k].key) {
      assert mem[k] in mem;
      CompareIsBefore(mem[k].key, e.key);
      CompareIsBefore(e.key, mem[k].key);
    }
    InsertedIsSorted(mem, i, e);
    InsertedElements(mem, i, e);
  }

  lemma InsertedIsSorted(mem: seq<Entry>, i: nat, e: Entry)
    requires Sorted(mem) && i <= |mem|
    requires forall k :: 0 <= k < i ==> Before(mem[k].key, e.key)
    requires forall k :: i <= k < |mem| ==> Before(e.key, mem[k].key)
    ensures Sorted(mem[..i] + [e] + mem[i..])
  {
    var r := mem[..i] + [e] + mem[i..];
    assert forall k :: 0 <= k < |r| ==> r[k] == if k < i then mem[k] else if k == i then e else mem[k - 1];
  }

  lemma InsertedElements(mem: seq<Entry>, i: nat, e: Entry)
    requires i <= |mem|
    ensures Elements(mem[..i] + [e] + mem[i..]) == Elements(mem) + {e}
  {
    assert mem == mem[..i] + mem[i..];
  }

  lemma BatchIsNew(s: Runs.State, batch: seq<Runs.Operation>)
    requires HistoryBounds(s) && s.lastSequence + |batch| < MAX_SEQUENCE
    ensures var added := BatchEntries(batch, s.lastSequence);
      && (forall o, i :: o in s.mem && 0 <= i < |added| ==> o.key.sequence < added[i].key.sequence)
      && (forall i, j :: 0 <= i < j < |added| ==> added[i].key.sequence < added[j].key.sequence)
  {
    forall o | o in s.mem ensures o.key.sequence <= s.lastSequence {
      assert o in Elements(s.mem);
    }
  }

  /** The entries of a batch go into the memtable one by one. */
  method InsertBatch(mem: seq<Entry>, added: seq<Entry>) returns (r: seq<Entry>)
    requires Sorted(mem)
    requires forall o, i :: o in mem && 0 <= i < |added| ==> o.key.sequence < added[i].key.sequence
    requires forall i, j :: 0 <= i < j < |added| ==> added[i].key.sequence < added[j].key.sequence
    ensures Sorted(r) && Elements(r) == Elements(mem) + Elements(added)
  {
    r := mem;
    for i := 0 to |added|
      invariant Sorted(r) && Elements(r) == Elements(mem) + Elements(added[..i])
    {
      KeyIsNew(r, Elements(mem), added, i);
      r := InsertEntry(r, added[i]);
      OneMoreElement(added, i);
    }
    assert added[..|added|] == added;
  }

  lemma OneMoreElement(es: seq<Entry>, i: nat)
    requires i < |es|
    ensures Elements(es[..i + 1]) == Elements(es[..i]) + {es[i]}
  {
    assert es[..i + 1] == es[..i] + [es[i]];
  }

  lemma KeyIsNew(mem: seq<Entry>, before: set<Entry>, added: seq<Entry>, i: nat)
    requires i < |added| && Elements(mem) == before + Elements(added[..i])
    requires forall o :: o in before ==> o.key.sequence < added[i].key.sequence
    requires forall j :: 0 <= j < i ==> added[j].key.sequence < added[i].key.sequence
    ensures forall o :: o in mem ==> o.key != added[i].key
  {
    forall o | o in mem ensures o.key != added[i].key {
      assert o in Elements(mem);
    }
  }

  lemma NumberIsUnused(s: Runs.State, number: nat)
    requires Shape(s.levels) && NumbersUsed(s) && number >= s.nextFile
    ensures forall l, f :: 0 <= l < NUM_LEVELS && f in s.levels[l] ==> f.number != number
  {
  }

  /** An empty memtable makes no table; the edit changes no level. */
  method FlushNothing(levels: Levels) returns (v: Levels)
    requires Listed(levels)
    ensures v == levels
  {
    var e := Edit({}, []);
    v := LogAndApply(levels, e);
    forall l | 0 <= l < NUM_LEVELS ensures v[l] == levels[l] {
      assert DeletedAt(e, l) == {} && AddedAt(e, l) == {};
      UntouchedLevel(levels[l], v[l]);
    }
  }

  lemma OneFileEdit(level: nat, file: File)
    ensures var e := Edit({}, [(level, file)]);
      && DeletedAt(e, level) == {} && AddedAt(e, level) == {file}
      && (forall l: nat :: l != level ==> DeletedAt(e, l) == {} && AddedAt(e, l) == {})
  {
    var e := Edit({}, [(level, file)]);
    assert e.added[0].1 == file;
  }

  /** The edit of a flush: one file added. */
  method AddTable(levels: Levels, level: nat, file: File) returns (v: Levels)
    requires Listed(levels) && level < NUM_LEVELS
    requires forall l, f :: 0 <= l < NUM_LEVELS && f in levels[l] ==> f.number != file.number
    ensures Flushed(levels, level, file, v) && Listed(v)
  {
    var e := Edit({}, [(level, file)]);
    OneFileEdit(level, file);
    assert Numbers({file}) == {file.number};
    forall l | 0 <= l < NUM_LEVELS ensures Numbers(FilesOf(levels[l])) !! Numbers(AddedAt(e, l)) {
    }
    v := LogAndApply(levels, e);
    forall l | 0 <= l < NUM_LEVELS && l != level ensures v[l] == levels[l] {
      UntouchedLevel(levels[l], v[l]);
    }
    assert FilesOf([file]) == {file};
    SavedFromFiles(v[level], levels[level], [file]);
    FlushedIsListed(levels, level, file, v);
  }

  /** Writes a memtable's entries as a table, at the level that
      `PickLevelForMemTableOutput` allows; an empty memtable makes none. */
  method WriteLevel0Table(ghost s: Runs.State, levels: Levels, es: seq<Entry>, number: nat, size: File -> nat,
                          maxOverlap: nat)
    returns (v: Levels, level: nat)
    requires Inv(s) && Listed(levels) && levels == s.levels && number == s.nextFile && s.imm == Some(es)
    ensures Listed(v) && FlushStep(s, level, s.(imm := None, levels := v, nextFile := number + 1))
  {
    level := 0;
    if es == [] {
      v := FlushNothing(levels);
    } else {
      var file := File(number, es[0].key, es[|es| - 1].key, es);
      level := PlaceTable(levels, file, size, maxOverlap);
      NumberIsUnused(s, file.number);
      v := AddTable(levels, level, file);
    }
  }

  method PlaceTable(levels: Levels, file: File, size: File -> nat, maxOverlap: nat) returns (level: nat)
    requires Shape(levels)
    ensures MayFlushTo(levels, level, file)
  {
    var lo, hi := file.smallest.user, file.largest.user;
    level := PickLevelForMemTableOutput(levels, lo, hi, size, maxOverlap);
    if level < MAX_MEM_COMPACT_LEVEL && GrandparentOverlap(levels, level, lo, hi, size) > maxOverlap {
      NonemptyMeets(levels[level + 2], lo, hi);
    }
  }

  lemma ListedHasNoDuplicates(levels: Levels)
    requires Listed(levels)
    ensures forall l :: 0 <= l < NUM_LEVELS ==> NoDuplicates(levels[l])
  {
    forall l | 0 <= l < NUM_LEVELS ensures NoDuplicates(levels[l]) {
      SortedHasNoDuplicates(levels[l]);
    }
  }

  lemma StoredIsUnique(s: Runs.State)
    requires HistoryBounds(s)
    ensures UniqueSequences(Db(s)) && UniqueSequences(EntriesIn(s.levels)) && EntriesIn(s.levels) <= Db(s)
  {
  }

  lemma MovedFileIsGood(levels: Levels, level: nat, file: File, in0: seq<File>)
    requires Listed(levels) && level + 1 < NUM_LEVELS && in0 == [file] && file in levels[level]
    ensures Identified(FilesOf(in0)) && NumbersAreNew(levels, level, in0, in0)
    ensures Numbers(FilesOf(levels[level + 1])) !! Numbers(FilesOf(in0))
  {
    assert FilesOf(in0) == {file};
  }

  lemma OutputsAreNew(s: Runs.State, level: nat, in0: seq<File>, outputs: seq<File>, next: nat)
    requires |s.levels| == NUM_LEVELS && level + 1 < NUM_LEVELS && NumbersUsed(s) && Numbered(outputs, s.nextFile, next)
    ensures Identified(FilesOf(outputs)) && NumbersAreNew(s.levels, level, in0, outputs)
    ensures Numbers(FilesOf(s.levels[level + 1])) !! Numbers(FilesOf(outputs))
  {
    forall f, g | f in outputs && g in outputs && f.number == g.number ensures f == g {
      var i :| 0 <= i < |outputs| && outputs[i] == f;
      var j :| 0 <= j < |outputs| && outputs[j] == g;
    }
  }

  /** A single valid file is a good output of its own move. */
  lemma MoveIsStep(s: Runs.State, level: nat, in0: seq<File>, s': Runs.State)
    requires Inv(s) && Listed(s.levels) && |in0| == 1 && ChosenInputs(s.levels, level, in0, [])
    requires Installed(s.levels, level, in0, [], in0, s'.levels) && s' == s.(levels := s'.levels)
    requires forall l :: 0 <= l < NUM_LEVELS ==> SortedBySmallest(s'.levels[l])
    ensures Step(s, TrivialMove(level, in0[0]), s') && Inv(s') && Listed(s'.levels)
  {
    assert in0 == [in0[0]];
    StepKeepsInv(s, TrivialMove(level, in0[0]), s');
    MovedFileIsGood(s.levels, level, in0[0], in0);
    InstalledIsListed(s.levels, level, in0, [], in0, s'.levels);
  }

  /** What `CompactFiles` installs is a compaction step. */
  lemma CompactionIsStep(s: Runs.State, level: nat, in0: seq<File>, in1: seq<File>, outputs: seq<File>, s': Runs.State)
    requires Inv(s) && Listed(s.levels) && ChosenInputs(s.levels, level, in0, in1)
    requires AllValid(outputs) && Disjoint(outputs)
    requires EntriesOf(outputs) == Survivors(EntriesOf(in0) + EntriesOf(in1), s.levels, level, SmallestSnapshot(s))
    requires s.nextFile <= s'.nextFile && Numbered(outputs, s.nextFile, s'.nextFile)
    requires Installed(s.levels, level, in0, in1, outputs, s'.levels)
    requires s' == s.(levels := s'.levels, nextFile := s'.nextFile)
    requires forall l :: 0 <= l < NUM_LEVELS ==> SortedBySmallest(s'.levels[l])
    ensures Step(s, Compact(level, in0, in1, outputs), s') && Inv(s') && Listed(s'.levels)
  {
    OutputsAreNew(s, level, in0, outputs, s'.nextFile);
    InstalledIsListed(s.levels, level, in0, in1, outputs, s'.levels);
    StepKeepsInv(s, Compact(level, in0, in1, outputs), s');
  }

  predicate IsCompaction(a: Action, level: nat) {
    match a
    case Compact(l, _, _, _) => l == level
    case TrivialMove(l, _) => l == level
    case _ => false
  }

  /** The input files of a compaction step from its own level. */
  function UpperInputs(a: Action): seq<File> {
    match a
    case Compact(_, in0, _, _) => in0
    case TrivialMove(_, file) => [file]
    case _ => []
  }

  /** Those from the next level. */
  function LowerInputs(a: Action): seq<File> {
    match a
    case Compact(_, _, in1, _) => in1
    case _ => []
  }

  /** These inputs are set up from some picked files. */
  ghost predicate MayCompact(s: Runs.State, level: nat, in0: seq<File>, in1: seq<File>) {
    exists picked :: ReadyFor(s, level, picked, in0, in1)
  }

  ghost predicate ReadyFor(s: Runs.State, level: nat, picked: seq<File>, in0: seq<File>, in1: seq<File>) {
    && Inv(s) && Listed(s.levels) && ChosenInputs(s.levels, level, in0, in1)
    && NoDuplicates(in0) && NoDuplicates(in1) && SetUp(s.levels, level, picked, in0, in1)
  }

  /** One compaction step from `s` to `s'`, from these input files. */
  ghost predicate Compacts(s: Runs.State, a: Action, level: nat, in0: seq<File>, in1: seq<File>, s': Runs.State) {
    exists outputs :: ReplacesBy(a, level, in0, in1, outputs) && IsStep(s, a, s')
  }

  predicate ReplacesBy(a: Action, level: nat, in0: seq<File>, in1: seq<File>, outputs: seq<File>) {
    match a
    case Compact(_, _, _, _) => a == Compact(level, in0, in1, outputs)
    case TrivialMove(l, file) => l == level && in0 == [file] && in1 == [] && outputs == in0
    case _ => false
  }

  ghost predicate IsStep(s: Runs.State, a: Action, s': Runs.State) {
    Step(s, a, s') && Inv(s') && Listed(s'.levels)
  }

  /** A compaction leads to the state with these levels and this next file number. */
  ghost predicate CompactsTo(s: Runs.State, a: Action, level: nat, in0: seq<File>, in1: seq<File>, levels: Levels,
                             next: nat) {
    forall s': Runs.State :: s' == s.(levels := levels, nextFile := next) ==> Compacts(s, a, level, in0, in1, s')
  }

  lemma CompactsIsStep(s: Runs.State, a: Action, level: nat, in0: seq<File>, in1: seq<File>, s': Runs.State)
    requires Compacts(s, a, level, in0, in1, s')
    ensures IsStep(s, a, s') && IsCompaction(a, level) && UpperInputs(a) == in0 && LowerInputs(a) == in1
  {
  }

  /** The levels after merging the inputs into new files of the next level. */
  method MergeLevels(ghost s: Runs.State, levels: Levels, level: nat, in0: seq<File>, in1: seq<File>,
                     smallest: SequenceNumber, number: nat)
    returns (v: Levels, next: nat, ghost a: Action)
    requires MayCompact(s, level, in0, in1)
    requires levels == s.levels && number == s.nextFile && smallest == SmallestSnapshot(s)
    ensures CompactsTo(s, a, level, in0, in1, v, next)
  {
    StoredIsUnique(s);
    InputsAreInLevels(levels, level, in0, in1);
    var outputs;
    outputs, next := RunCompaction(levels, level, in0, in1, smallest, number, Db(s));
    OutputsAreNew(s, level, in0, outputs, next);
    v := Install(levels, level, in0, in1, outputs);
    CompactionIsStep(s, level, in0, in1, outputs, s.(levels := v, nextFile := next));
    a := Compact(level, in0, in1, outputs);
    assert ReplacesBy(a, level, in0, in1, outputs);
  }

  /** The levels after moving a file to the next. */
  method MoveLevels(ghost s: Runs.State, levels: Levels, level: nat, in0: seq<File>)
    returns (v: Levels, ghost a: Action)
    requires MayCompact(s, level, in0, []) && levels == s.levels && |in0| == 1
    ensures CompactsTo(s, a, level, in0, [], v, s.nextFile)
  {
    MovedFileIsGood(levels, level, in0[0], in0);
    v := Install(levels, level, in0, [], in0);
    MoveIsStep(s, level, in0, s.(levels := v));
    a := TrivialMove(level, in0[0]);
    assert ReplacesBy(a, level, in0, [], in0);
  }

  /** A compaction whose next-level inputs leave only newer entries behind exposes no key. */
  lemma ClosedCompactionExposesNothing(s: Runs.State, a: Action, user: UserKey)
    requires Inv(s) && (a.Compact? ==> ChosenInputs(s.levels, a.level, a.in0, a.in1)
                                       && LeavesOnlyNewer(s.levels[a.level + 1], a.in1))
    ensures !ExposesOn(s, a, user)
  {
    if a.Compact? {
      StoredIsUnique(s);
      ClosedInputsExposeNothing(MemEntries(s), s.levels, a.level, a.in0, a.in1, SmallestSnapshot(s), user);
    }
  }

  /** What a compaction writes: at or below the oldest snapshot one entry of a user
      key at most, and tombstones only for the sake of files further below. */
  lemma CompactionLeavesLittle(s: Runs.State, a: Action, s': Runs.State)
    requires Inv(s) && Step(s, a, s') && a.Compact?
    ensures var oldest := if s.snapshots == [] then s.lastSequence else s.snapshots[0];
      && (forall i :: 0 <= i < |s.snapshots| ==> oldest <= s.snapshots[i])
      && OneVisible(EntriesOf(a.outputs), oldest)
      && TombstonesNeeded(EntriesOf(a.outputs), s.levels, a.level, oldest)
  {
    assert CompactStep(s, a.level, a.in0, a.in1, a.outputs, s');
    InputsAreUnique(s, a.level, a.in0, a.in1);
    NothingElseCouldGo(EntriesOf(a.in0) + EntriesOf(a.in1), s.levels, a.level, SmallestSnapshot(s));
  }

  lemma InputsAreUnique(s: Runs.State, level: nat, in0: seq<File>, in1: seq<File>)
    requires HistoryBounds(s) && ChosenInputs(s.levels, level, in0, in1)
    ensures UniqueSequences(EntriesOf(in0) + EntriesOf(in1))
  {
    StoredIsUnique(s);
    InputsAreInLevels(s.levels, level, in0, in1);
    LevelsPart(s.levels, level);
  }

  lemma NoFilesAreListed()
    ensures Listed(NO_FILES)
  {
    forall l | 0 <= l < NUM_LEVELS ensures NO_FILES[l] == [] {
    }
  }

  class Database {
    /** File sizes, and how much of level + 2 a new table may overlap. */
    const size: File -> nat
    const maxOverlap: nat

    var mem: seq<Entry>
    var imm: Option<seq<Entry>>
    var levels: Levels
    var lastSequence: SequenceNumber
    var snapshots: seq<SequenceNumber>
    var nextFile: nat

    /** Everything ever written. */
    ghost var history: set<Entry>

    ghost function State(): Runs.State
      reads this
    {
      Runs.State.State(mem, imm, levels, lastSequence, snapshots, nextFile, history)
    }

    ghost predicate Valid()
      reads this
    {
      Inv(State()) && Listed(levels)
    }

    constructor (size: File -> nat, maxOverlap: nat)
      ensures Valid() && Init(State())
    {
      this.size, this.maxOverlap := size, maxOverlap;
      mem, imm, levels := [], None, NO_FILES;
      lastSequence, snapshots, nextFile, history := 0, [], 2, {};
      new;
      InitKeepsInv(State());
      NoFilesAreListed();
    }

    method GetSnapshot() returns (snapshot: SequenceNumber)
      requires Valid()
      modifies this`snapshots
      ensures Valid() && Step(old(State()), NewSnapshot, State())
      ensures snapshot == lastSequence && snapshots == old(snapshots) + [snapshot]
    {
      snapshots := snapshots + [lastSequence];
      StepKeepsInv(old(State()), NewSnapshot, State());
      snapshot := lastSequence;
    }

    method DropSnapshot(index: nat)
      requires Valid() && index < |snapshots|
      modifies this`snapshots
      ensures Valid() && Step(old(State()), ReleaseSnapshot(index), State())
    {
      snapshots := snapshots[..index] + snapshots[index + 1..];
      StepKeepsInv(old(State()), ReleaseSnapshot(index), State());
    }

    /** Consecutive sequence numbers, published when all entries are in the memtable. */
    method Write(batch: seq<Runs.Operation>)
      requires Valid() && lastSequence + |batch| < MAX_SEQUENCE
      modifies this`mem, this`lastSequence, this`history
      ensures Valid() && Step(old(State()), Action.Write(batch), State())
    {
      ghost var s := State();
      var added := BatchEntries(batch, lastSequence);
      BatchIsNew(s, batch);
      mem := InsertBatch(mem, added);
      lastSequence := lastSequence + |batch|;
      history := history + Elements(added);
      StepKeepsInv(s, Action.Write(batch), State());
    }

    /** Writes the immutable memtable to a table at the level that
        `PickLevelForMemTableOutput` allows. */
    method CompactMemTable() returns (ghost level: nat)
      requires Valid() && imm.Some?
      modifies this`imm, this`levels, this`nextFile
      ensures Valid() && Step(old(State()), Action.CompactMemTable(level), State())
    {
      ghost var s := State();
      var picked;
      levels, picked := WriteLevel0Table(s, levels, imm.value, nextFile, size, maxOverlap);
      level := picked;
      imm, nextFile := None, nextFile + 1;
      StepKeepsInv(s, Action.CompactMemTable(level), State());
    }

    /** Compacts picked files of a level into the next: a trivial move of a single
        file, or a merge. */
    method CompactFiles(level: nat, picked: seq<File>, manual: bool) returns (ghost a: Action)
      requires Valid() && level + 1 < NUM_LEVELS
      requires PickedInputs(levels[level], level, picked) && NoDuplicates(picked)
      modifies this`levels, this`nextFile
      ensures Valid() && IsCompaction(a, level) && Step(old(State()), a, State())
      ensures SetUp(old(levels), level, picked, UpperInputs(a), LowerInputs(a))
      ensures forall f :: f in picked ==> f in UpperInputs(a)
    {
      ghost var s := State();
      ListedHasNoDuplicates(levels);
      StoredIsUnique(s);
      var inputs0, inputs1 := SetupOtherInputs(levels, level, picked);
      assert ReadyFor(s, level, picked, inputs0, inputs1);
      var trivial := false;
      if !manual && |inputs0| == 1 && inputs1 == [] {
        // The overlap with grandparents, a byte count, is left open.
        trivial := *;
      }
      if trivial {
        a := MoveFile(level, inputs0);
      } else {
        a := MergeFiles(level, inputs0, inputs1);
      }
      CompactsIsStep(s, a, level, inputs0, inputs1, State());
    }

    /** Merges the inputs into new files of the next level. */
    method MergeFiles(level: nat, inputs0: seq<File>, inputs1: seq<File>) returns (ghost a: Action)
      requires MayCompact(State(), level, inputs0, inputs1)
      modifies this`levels, this`nextFile
      ensures Compacts(old(State()), a, level, inputs0, inputs1, State())
    {
      var smallest := if snapshots == [] then lastSequence else snapshots[0];
      levels, nextFile, a := MergeLevels(State(), levels, level, inputs0, inputs1, smallest, nextFile);
    }

    /** Moves the only input to the next level. */
    method MoveFile(level: nat, inputs0: seq<File>) returns (ghost a: Action)
      requires MayCompact(State(), level, inputs0, []) && |inputs0| == 1
      modifies this`levels
      ensures Compacts(old(State()), a, level, inputs0, [], State())
    {
      levels, a := MoveLevels(State(), levels, level, inputs0);
    }

    /** `PickCompaction` from any file of any level. */
    method BackgroundCompaction(level: nat, seed: File) returns (ghost a: Action)
      requires Valid() && level + 1 < NUM_LEVELS && seed in levels[level]
      modifies this`levels, this`nextFile
      ensures Valid() && IsCompaction(a, level) && Step(old(State()), a, State())
      ensures seed in UpperInputs(a)
      ensures exists picked :: PickedFrom(old(levels[level]), level, seed, picked)
                               && SetUp(old(levels), level, picked, UpperInputs(a), LowerInputs(a))
    {
      ListedHasNoDuplicates(levels);
      var picked := PickCompaction(levels, level, seed);
      a := CompactFiles(level, picked, false);
    }

    /** `CompactRange`: from the files of a level that meet a user-key range. */
    method ManualCompaction(level: nat, begin: Option<UserKey>, end: Option<UserKey>) returns (ghost a: Option<Action>)
      requires Valid() && level + 1 < NUM_LEVELS
      modifies this`levels, this`nextFile
      ensures Valid()
      ensures a.Some? <==> exists f :: f in old(levels[level]) && Overlaps(f, begin, end)
      ensures if a.Some? then
                && IsCompaction(a.value, level) && Step(old(State()), a.value, State())
                && CoversRange(old(levels[level]), level, begin, end, UpperInputs(a.value))
                && (exists picked :: RangePicked(old(levels[level]), level, begin, end, picked)
                      && SetUp(old(levels), level, picked, UpperInputs(a.value), LowerInputs(a.value)))
              else State() == old(State())
    {
      ListedHasNoDuplicates(levels);
      var picked := CompactRange(levels, level, begin, end);
      a := None;
      if picked != [] {
        ghost var action := CompactFiles(level, picked, true);
        a := Some(action);
      }
    }

    /** The part of `MakeRoomForWrite` that starts a new memtable. */
    method SwitchMemTable()
      requires Valid() && imm.None?
      modifies this`mem, this`imm
      ensures Valid() && Step(old(State()), Action.SwitchMemTable, State())
    {
      imm := Some(mem);
      mem := [];
      StepKeepsInv(old(State()), Action.SwitchMemTable, State());
    }

    /** Memtable, then immutable memtable, then the version: the answer is the
        newest entry stored, and the one the write history gives at a live
        snapshot as long as no compaction exposed the key. */
    method Get(user: UserKey, snapshot: SequenceNumber) returns (r: Option<Bytes>)
      requires Valid()
      ensures forall answer :: Reads(Db(State()), user, snapshot, answer) <==> answer == r
      ensures AgreesOn(State(), user) && (snapshot in snapshots || snapshot == lastSequence) ==>
        forall answer :: Reads(history, user, snapshot, answer) <==> answer == r
    {
      var found := GetInRun(mem, user, snapshot);
      if found.None? && imm.Some? {
        found := GetInRun(imm.value, user, snapshot);
      }
      if found.None? {
        found := Versions.Get(levels, user, snapshot);
      }
      r := ResultOf(found);
      FoundIsRead(State(), user, snapshot, found);
      if AgreesOn(State(), user) && (snapshot in snapshots || snapshot == lastSequence) {
        ReadIsHistory(State(), user, snapshot, r);
      }
    }
  }

  /** What the search order finds is the newest entry stored. */
  lemma FoundIsRead(s: State, user: UserKey, snapshot: SequenceNumber, found: Option<Entry>)
    requires Inv(s)
    requires var inMem := GetInRun(s.mem, user, snapshot);
      var inImm := if s.imm.Some? then GetInRun(s.imm.value, user, snapshot) else None;
      if inMem.Some? then found == inMem
      else if inImm.Some? then found == inImm
      else FindsNewest(EntriesIn(s.levels), user, snapshot, found)
    ensures forall answer :: Reads(Db(s), user, snapshot, answer) <==> answer == ResultOf(found)
  {
    GetInRunFindsNewest(s.mem, user, snapshot);
    if s.imm.Some? {
      GetInRunFindsNewest(s.imm.value, user, snapshot);
    }
    assert FindsNewest(Db(s), user, snapshot, found);
    ReadIsResult(Db(s), user, snapshot, found);
  }

  lemma ReadIsHistory(s: State, user: UserKey, snapshot: SequenceNumber, r: Option<Bytes>)
    requires HistoryBounds(s) && AgreesOn(s, user) && (snapshot in s.snapshots || snapshot == s.lastSequence)
    requires forall answer :: Reads(Db(s), user, snapshot, answer) <==> answer == r
    ensures forall answer :: Reads(s.history, user, snapshot, answer) <==> answer == r
  {
    LiveIsRecent(s, snapshot);
    assert SameRead(s.history, Db(s), user, snapshot);
  }
}
