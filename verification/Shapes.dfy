/** Installing new files keeps the shape of a version. */
module Shapes {
  import opened InternalKeys
  import opened Versions
  import opened Inputs
  import opened Compactions
  import opened Installs

  /** The order `BySmallestKey` in which a saved version lists a level. */
  predicate BySmallest(f: File, g: File) {
    || Before(f.smallest, g.smallest)
    || (f.smallest == g.smallest && f.number < g.number)
  }

  predicate SortedBySmallest(files: seq<File>) {
    forall i, j :: 0 <= i < j < |files| ==> BySmallest(files[i], files[j])
  }

  /** `after` lists exactly the files kept and added, in order. */
  ghost predicate Saved(after: seq<File>, kept: seq<File>, added: seq<File>) {
    && (forall f :: f in after <==> f in kept || f in added)
    && SortedBySmallest(after)
  }

  predicate Separated(f: File, g: File) {
    Before(f.largest, g.smallest) || Before(g.largest, f.smallest)
  }

  predicate AllSeparated(a: seq<File>, b: seq<File>) {
    forall f, g :: f in a && g in b && f != g ==> Separated(f, g)
  }

  lemma DisjointIsSeparated(files: seq<File>)
    requires Disjoint(files)
    ensures AllSeparated(files, files)
  {
    forall f, g | f in files && g in files && f != g ensures Separated(f, g) {
      var i :| 0 <= i < |files| && files[i] == f;
      var j :| 0 <= j < |files| && files[j] == g;
    }
  }

  lemma SavedIsDisjoint(after: seq<File>, kept: seq<File>, added: seq<File>)
    requires Saved(after, kept, added)
    requires AllValid(kept) && AllValid(added)
    requires AllSeparated(kept, kept) && AllSeparated(added, added) && AllSeparated(kept, added)
    ensures Disjoint(after)
  {
    assert AllValid(after);
    ValidFilesAreOrdered(after);
    forall i, j | 0 <= i < j < |after| ensures Before(after[i].largest, after[j].smallest) {
      assert after[i] in after && after[j] in after;
      assert BySmallest(after[i], after[j]);
      assert Separated(after[i], after[j]);
    }
  }

  lemma WithoutSeparated(files: seq<File>, chosen: seq<File>)
    requires Disjoint(files)
    ensures AllSeparated(Without(files, chosen), Without(files, chosen))
  {
    DisjointIsSeparated(files);
  }

  // ---------------------------------------------------------------------
  // Compaction and trivial move
  // ---------------------------------------------------------------------

  /** `InstallCompactionResults`: the inputs are deleted from their levels and
      the outputs added to level + 1.  A trivial move is the case where the
      single input file is itself the output. */
  ghost predicate Installed(before: Levels, level: nat, in0: seq<File>, in1: seq<File>, outputs: seq<File>,
                            after: Levels)
    requires |before| == NUM_LEVELS && level + 1 < NUM_LEVELS
  {
    && |after| == NUM_LEVELS
    && (forall l :: 0 <= l < NUM_LEVELS && l != level && l != level + 1 ==> after[l] == before[l])
    && Saved(after[level], Without(before[level], in0), [])
    && Saved(after[level + 1], Without(before[level + 1], in1), outputs)
  }

  /** What the outputs of a compaction of `in0` and `in1` satisfy. */
  ghost predicate GoodOutputs(in0: seq<File>, in1: seq<File>, outputs: seq<File>) {
    && AllValid(outputs)
    && Disjoint(outputs)
    && EntriesOf(outputs) <= EntriesOf(in0) + EntriesOf(in1)
  }

  /** A file left behind at level + 1 lies wholly before or after every input. */
  lemma LeftBehindAvoidsInputs(files: seq<File>, next: seq<File>, in0: seq<File>, in1: seq<File>, g: File)
    requires AllValid(files) && AllValid(next) && Disjoint(next)
    requires forall f :: f in in0 ==> f in files
    requires HasNextLevelInputs(next, in0, in1) && g in next && g !in in1
    ensures (forall e :: e in EntriesOf(in0) + EntriesOf(in1) ==> Before(g.largest, e.key))
         || (forall e :: e in EntriesOf(in0) + EntriesOf(in1) ==> Before(e.key, g.smallest))
  {
    var lo, hi := RangeOfInputs(next, in0, in1);
    OverlappingMembers(next, Some(lo), Some(hi), g);
    DisjointIsSeparated(next);
    ValidFilesAreOrdered(next);
    var e0 := g.largest.user < lo;
    forall e | e in EntriesOf(in0) + EntriesOf(in1)
      ensures if e0 then Before(g.largest, e.key) else Before(e.key, g.smallest)
    {
      if e in EntriesOf(in0) {
        var f :| f in in0 && e in f.entries;
        EntryInRange(f, e);
      } else {
        var f :| f in in1 && e in f.entries;
        OverlappingMembers(next, Some(lo), Some(hi), f);
        EntryInRange(f, e);
        assert Separated(f, g);
      }
    }
  }

  lemma OutputsAvoidLeftBehind(files: seq<File>, next: seq<File>, in0: seq<File>, in1: seq<File>, outputs: seq<File>)
    requires AllValid(files) && AllValid(next) && Disjoint(next)
    requires forall f :: f in in0 ==> f in files
    requires HasNextLevelInputs(next, in0, in1) && GoodOutputs(in0, in1, outputs)
    ensures AllSeparated(Without(next, in1), outputs)
  {
    forall g, o | g in Without(next, in1) && o in outputs ensures Separated(g, o) {
      LeftBehindAvoidsInputs(files, next, in0, in1, g);
      var last := LastEntry(o);
      assert o.entries[0] in o.entries && last in o.entries;
      assert o.entries[0] in EntriesOf(outputs) && last in EntriesOf(outputs);
    }
  }

  /** The two rebuilt levels stay sorted and disjoint. */
  lemma InstallKeepsLevelsDisjoint(before: Levels, level: nat, in0: seq<File>, in1: seq<File>,
                                   outputs: seq<File>, after: Levels)
    requires Shape(before) && ChosenInputs(before, level, in0, in1)
    requires GoodOutputs(in0, in1, outputs) && Installed(before, level, in0, in1, outputs, after)
    ensures AllValid(after[level]) && AllValid(after[level + 1])
    ensures level > 0 ==> Disjoint(after[level])
    ensures Disjoint(after[level + 1])
  {
    var kept0, kept1 := Without(before[level], in0), Without(before[level + 1], in1);
    assert AllValid(kept0) && AllValid(kept1);
    if level > 0 {
      WithoutSeparated(before[level], in0);
      SavedIsDisjoint(after[level], kept0, []);
    }
    WithoutSeparated(before[level + 1], in1);
    DisjointIsSeparated(outputs);
    OutputsAvoidLeftBehind(before[level], before[level + 1], in0, in1, outputs);
    SavedIsDisjoint(after[level + 1], kept1, outputs);
  }

  lemma SavedEntries(after: seq<File>, kept: seq<File>, added: seq<File>)
    requires Saved(after, kept, added)
    ensures EntriesOf(after) == EntriesOf(kept) + EntriesOf(added)
  {
  }

  lemma NewerInShape(levels: Levels, i: nat, j: nat)
    requires Shape(levels) && i < j < NUM_LEVELS
    ensures NewerThan(EntriesOf(levels[i]), EntriesOf(levels[j]))
  {
  }

  lemma NewerThanUnion(a: set<Entry>, b: set<Entry>, c: set<Entry>)
    ensures NewerThan(a + b, c) <==> NewerThan(a, c) && NewerThan(b, c)
    ensures NewerThan(c, a + b) <==> NewerThan(c, a) && NewerThan(c, b)
  {
  }

  /** The entries of each level. */
  ghost function LevelSets(levels: Levels): (r: seq<set<Entry>>)
    ensures |r| == |levels| && forall l :: 0 <= l < |levels| ==> r[l] == EntriesOf(levels[l])
  {
    seq(|levels|, l requires 0 <= l < |levels| => EntriesOf(levels[l]))
  }

  ghost predicate NewerAbove(sets: seq<set<Entry>>) {
    forall i, j :: 0 <= i < j < |sets| ==> NewerThan(sets[i], sets[j])
  }

  /** Moving entries down one level keeps shallower levels newer, when what
      stays at the upper level is newer than what leaves it. */
  lemma MoveDownKeepsNewerAbove(before: seq<set<Entry>>, after: seq<set<Entry>>, level: nat,
                                in0: set<Entry>, moved: set<Entry>)
    requires NewerAbove(before) && |before| == |after| && level + 1 < |before|
    requires forall l :: 0 <= l < |before| && l != level && l != level + 1 ==> after[l] == before[l]
    requires in0 <= before[level] && moved <= in0 + before[level + 1]
    requires after[level] <= before[level] && NewerThan(after[level], in0)
    requires after[level + 1] <= before[level + 1] + moved
    ensures NewerAbove(after)
  {
    forall i, j | 0 <= i < j < |after| ensures NewerThan(after[i], after[j]) {
      forall x, y | x in after[i] && y in after[j] && x.key.user == y.key.user
        ensures x.key.sequence > y.key.sequence
      {
        var a := if x in before[level] then level else i;
        var b := if y in before[level] then level else j;
        assert x in before[a] && y in before[b];
        assert a < b || (i == level && j == level + 1 && y in in0);
      }
    }
  }

  /** Shallower levels stay newer. */
  lemma InstallKeepsNewerAbove(before: Levels, level: nat, in0: seq<File>, in1: seq<File>,
                               outputs: seq<File>, after: Levels)
    requires NewerAbove(LevelSets(before)) && ChosenInputs(before, level, in0, in1)
    requires GoodOutputs(in0, in1, outputs) && Installed(before, level, in0, in1, outputs, after)
    ensures NewerAbove(LevelSets(after))
  {
    InputsAreInLevels(before, level, in0, in1);
    SavedEntries(after[level], Without(before[level], in0), []);
    SavedEntries(after[level + 1], Without(before[level + 1], in1), outputs);
    WithoutEntries(before[level], in0);
    WithoutEntries(before[level + 1], in1);
    MoveDownKeepsNewerAbove(LevelSets(before), LevelSets(after), level, EntriesOf(in0), EntriesOf(outputs));
  }

  lemma SubsetKeepsNewestFileWins(files: seq<File>, files': seq<File>)
    requires NewestFileWins(files) && forall f :: f in files' ==> f in files
    ensures NewestFileWins(files')
  {
  }

  /** Installing a compaction or a trivial move keeps the shape. */
  lemma InstallKeepsShape(before: Levels, level: nat, in0: seq<File>, in1: seq<File>, outputs: seq<File>, after: Levels)
    requires Shape(before) && ChosenInputs(before, level, in0, in1)
    requires GoodOutputs(in0, in1, outputs) && Installed(before, level, in0, in1, outputs, after)
    ensures Shape(after)
  {
    InstallKeepsLevelsDisjoint(before, level, in0, in1, outputs, after);
    ShapeParts(before);
    InstallKeepsNewerAbove(before, level, in0, in1, outputs, after);
    Level0AfterInstall(before, level, in0, in1, outputs, after);
    ShapeFromParts(after);
  }

  lemma Level0AfterInstall(before: Levels, level: nat, in0: seq<File>, in1: seq<File>, outputs: seq<File>,
                           after: Levels)
    requires |before| == NUM_LEVELS && level + 1 < NUM_LEVELS && Installed(before, level, in0, in1, outputs, after)
    requires NewestFileWins(before[0])
    ensures NewestFileWins(after[0])
  {
    SubsetKeepsNewestFileWins(before[0], after[0]);
  }

  lemma ShapeParts(levels: Levels)
    requires Shape(levels)
    ensures NewerAbove(LevelSets(levels))
  {
  }

  lemma ShapeFromParts(levels: Levels)
    requires |levels| == NUM_LEVELS && NewerAbove(LevelSets(levels)) && NewestFileWins(levels[0])
    requires forall l :: 0 <= l < NUM_LEVELS ==> AllValid(levels[l]) && (l >= 1 ==> Disjoint(levels[l]))
    ensures Shape(levels)
  {
    assert forall l :: 0 <= l < NUM_LEVELS ==> LevelSets(levels)[l] == EntriesOf(levels[l]);
  }

  /** No entry is stored twice: what stays behind shares nothing with the inputs. */
  lemma LeftBehindSharesNothing(before: Levels, level: nat, in0: seq<File>, in1: seq<File>)
    requires Shape(before) && ChosenInputs(before, level, in0, in1)
    ensures EntriesOf(Without(before[level], in0)) !! EntriesOf(in0) + EntriesOf(in1)
    ensures EntriesOf(Without(before[level + 1], in1)) !! EntriesOf(in0) + EntriesOf(in1)
    ensures forall l :: 0 <= l < NUM_LEVELS && l != level && l != level + 1 ==>
      EntriesOf(before[l]) !! EntriesOf(in0) + EntriesOf(in1)
  {
    InputsAreInLevels(before, level, in0, in1);
    WithoutEntries(before[level], in0);
    NextLevelSharesNothing(before[level], before[level + 1], in0, in1);
    NewerSharesNothing(EntriesOf(Without(before[level], in0)), EntriesOf(in0));
    var sets := LevelSets(before);
    assert NewerAbove(sets);
    OtherLevelsShareNothing(sets, level, EntriesOf(in0), EntriesOf(in1), EntriesOf(Without(before[level], in0)));
    forall l | 0 <= l < NUM_LEVELS && l != level && l != level + 1
      ensures EntriesOf(before[l]) !! EntriesOf(in0) + EntriesOf(in1)
    {
      assert sets[l] == EntriesOf(before[l]);
    }
  }

  lemma OtherLevelsShareNothing(sets: seq<set<Entry>>, level: nat, inputs0: set<Entry>, inputs1: set<Entry>,
                                left: set<Entry>)
    requires NewerAbove(sets) && level + 1 < |sets| && inputs0 <= sets[level] && inputs1 <= sets[level + 1]
    requires left <= sets[level] && left !! inputs0
    ensures left !! inputs0 + inputs1
    ensures forall l :: 0 <= l < |sets| && l != level && l != level + 1 ==> sets[l] !! inputs0 + inputs1
  {
    LevelsShareNothing(sets, level, level + 1);
    forall l | 0 <= l < |sets| && l != level && l != level + 1 ensures sets[l] !! inputs0 + inputs1 {
      LevelsShareNothing(sets, l, level);
      LevelsShareNothing(sets, l, level + 1);
    }
  }

  lemma NewerSharesNothing(a: set<Entry>, b: set<Entry>)
    requires NewerThan(a, b)
    ensures a !! b
  {
  }

  lemma LevelsShareNothing(sets: seq<set<Entry>>, i: nat, j: nat)
    requires NewerAbove(sets) && i < |sets| && j < |sets| && i != j
    ensures sets[i] !! sets[j]
  {
    if i < j {
      NewerSharesNothing(sets[i], sets[j]);
    } else {
      NewerSharesNothing(sets[j], sets[i]);
    }
  }

  lemma NextLevelSharesNothing(files: seq<File>, next: seq<File>, in0: seq<File>, in1: seq<File>)
    requires AllValid(files) && AllValid(next) && Disjoint(next)
    requires forall f :: f in in0 ==> f in files
    requires HasNextLevelInputs(next, in0, in1)
    ensures EntriesOf(Without(next, in1)) !! EntriesOf(in0) + EntriesOf(in1)
  {
    forall e | e in EntriesOf(Without(next, in1)) ensures e !in EntriesOf(in0) + EntriesOf(in1) {
      var g :| g in next && g !in in1 && e in g.entries;
      LeftBehindAvoidsInputs(files, next, in0, in1, g);
      EntryInRange(g, e);
    }
  }

  /** Installing replaces the input entries by the output entries. */
  lemma InstallReplacesEntries(before: Levels, level: nat, in0: seq<File>, in1: seq<File>, outputs: seq<File>,
                               after: Levels)
    requires Shape(before) && ChosenInputs(before, level, in0, in1)
    requires Installed(before, level, in0, in1, outputs, after)
    ensures EntriesIn(after) == (EntriesIn(before) - (EntriesOf(in0) + EntriesOf(in1))) + EntriesOf(outputs)
  {
    LeftBehindSharesNothing(before, level, in0, in1);
    SavedEntries(after[level], Without(before[level], in0), []);
    SavedEntries(after[level + 1], Without(before[level + 1], in1), outputs);
    WithoutEntries(before[level], in0);
    WithoutEntries(before[level + 1], in1);
    ReplaceInLevels(before, after, level, EntriesOf(in0) + EntriesOf(in1), EntriesOf(outputs));
  }

  lemma ReplaceInLevels(before: Levels, after: Levels, level: nat, inputs: set<Entry>, outputs: set<Entry>)
    requires |before| == |after| && level + 1 < |before|
    requires forall l :: 0 <= l < |before| && l != level && l != level + 1 ==>
      EntriesOf(after[l]) == EntriesOf(before[l]) && EntriesOf(before[l]) !! inputs
    requires EntriesOf(after[level]) !! inputs
    requires EntriesOf(after[level]) <= EntriesOf(before[level]) <= EntriesOf(after[level]) + inputs
    requires outputs <= EntriesOf(after[level + 1]) <= EntriesOf(before[level + 1]) + outputs
    requires EntriesOf(before[level + 1]) <= EntriesOf(after[level + 1]) + inputs
    requires (EntriesOf(after[level + 1]) - outputs) !! inputs
    ensures EntriesIn(after) == (EntriesIn(before) - inputs) + outputs
  {
    var replaced := (EntriesIn(before) - inputs) + outputs;
    forall e | e in EntriesIn(after) ensures e in replaced {
      var l :| 0 <= l < |after| && e in EntriesOf(after[l]);
      assert e in outputs || e in EntriesOf(before[l]);
    }
    forall e | e in replaced ensures e in EntriesIn(after) {
      if e in outputs {
        assert e in EntriesOf(after[level + 1]);
      } else {
        var l :| 0 <= l < |before| && e in EntriesOf(before[l]);
        assert e in EntriesOf(after[l]);
      }
    }
  }

  lemma WithoutEntries(files: seq<File>, chosen: seq<File>)
    ensures EntriesOf(files) <= EntriesOf(Without(files, chosen)) + EntriesOf(chosen)
    ensures EntriesOf(Without(files, chosen)) <= EntriesOf(files)
  {
  }

  // ---------------------------------------------------------------------
  // Flush
  // ---------------------------------------------------------------------

  ghost predicate Flushed(before: Levels, level: nat, file: File, after: Levels)
    requires |before| == NUM_LEVELS && level < NUM_LEVELS
  {
    && |after| == NUM_LEVELS
    && (forall l :: 0 <= l < NUM_LEVELS && l != level ==> after[l] == before[l])
    && Saved(after[level], before[level], [file])
  }

  /** The guarantee of `PickLevelForMemTableOutput`, whatever the sizes of files:
      it stops early only where it meets a file, or could meet too large ones. */
  predicate MayFlushTo(levels: Levels, level: nat, file: File)
    requires |levels| == NUM_LEVELS
  {
    && level <= MAX_MEM_COMPACT_LEVEL
    && (level > 0 ==> forall l :: 0 <= l <= level ==> !Meets(levels[l], file.smallest.user, file.largest.user))
    && (level < MAX_MEM_COMPACT_LEVEL ==>
          || (level == 0 && Meets(levels[0], file.smallest.user, file.largest.user))
          || Meets(levels[level + 1], file.smallest.user, file.largest.user)
          || Meets(levels[level + 2], file.smallest.user, file.largest.user))
  }

  lemma FlushReplacesEntries(before: Levels, level: nat, file: File, after: Levels)
    requires |before| == NUM_LEVELS && level < NUM_LEVELS && Flushed(before, level, file, after)
    ensures EntriesIn(after) == EntriesIn(before) + Elements(file.entries)
    ensures EntriesOf(after[level]) == EntriesOf(before[level]) + Elements(file.entries)
  {
    SavedEntries(after[level], before[level], [file]);
    OneFile(file);
    forall e | e in EntriesIn(after) ensures e in EntriesIn(before) + Elements(file.entries) {
      var l :| 0 <= l < |after| && e in EntriesOf(after[l]);
      assert e in Elements(file.entries) || e in EntriesOf(before[l]);
    }
    forall e | e in EntriesIn(before) + Elements(file.entries) ensures e in EntriesIn(after) {
      if e in Elements(file.entries) {
        assert e in EntriesOf(after[level]);
      } else {
        var l :| 0 <= l < |before| && e in EntriesOf(before[l]);
        assert e in EntriesOf(after[l]);
      }
    }
  }

  lemma NoOverlapNoSharedUser(files: seq<File>, file: File)
    requires AllValid(files) && file.Valid()
    requires !Meets(files, file.smallest.user, file.largest.user)
    ensures forall x, y :: x in EntriesOf(files) && y in Elements(file.entries) ==> x.key.user != y.key.user
    ensures AllSeparated(files, [file])
  {
    forall x, y | x in EntriesOf(files) && y in Elements(file.entries) ensures x.key.user != y.key.user {
      var f :| f in files && x in f.entries;
      EntryInRange(f, x);
      EntryInRange(file, y);
    }
    ValidFilesAreOrdered(files);
  }

  /** Placing a file of newer entries where the level picker allows keeps the shape. */
  lemma FlushKeepsShape(before: Levels, level: nat, file: File, after: Levels)
    requires Shape(before) && file.Valid() && MayFlushTo(before, level, file)
    requires Flushed(before, level, file, after)
    requires NewerThan(Elements(file.entries), EntriesIn(before))
    requires forall f :: f in before[0] ==> f.number < file.number
    ensures Shape(after)
  {
    ShapeParts(before);
    FlushKeepsNewerAbove(before, level, file, after);
    if level == 0 {
      LevelsPart(before, 0);
      FlushKeepsNewestFileWins(before[0], file, after[0], EntriesIn(before));
    } else {
      NoOverlapNoSharedUser(before[level], file);
      DisjointIsSeparated(before[level]);
      SavedIsDisjoint(after[level], before[level], [file]);
    }
    ShapeFromParts(after);
  }

  lemma FlushKeepsNewerAbove(before: Levels, level: nat, file: File, after: Levels)
    requires |before| == NUM_LEVELS && NewerAbove(LevelSets(before))
    requires forall l :: 0 <= l <= level < NUM_LEVELS ==> AllValid(before[l])
    requires file.Valid() && MayFlushTo(before, level, file) && Flushed(before, level, file, after)
    requires NewerThan(Elements(file.entries), EntriesIn(before))
    ensures NewerAbove(LevelSets(after))
  {
    FlushReplacesEntries(before, level, file, after);
    var sets, sets' := LevelSets(before), LevelSets(after);
    forall i, j | 0 <= i < j < NUM_LEVELS ensures NewerThan(sets'[i], sets'[j]) {
      assert NewerThan(sets[i], sets[j]);
      if j == level {
        NoOverlapNoSharedUser(before[i], file);
      } else if i == level {
        LevelsPart(before, j);
      }
    }
  }

  lemma FlushKeepsNewestFileWins(files: seq<File>, file: File, files': seq<File>, older: set<Entry>)
    requires NewestFileWins(files) && Saved(files', files, [file])
    requires NewerThan(Elements(file.entries), older) && EntriesOf(files) <= older
    requires forall f :: f in files ==> f.number < file.number
    ensures NewestFileWins(files')
  {
    forall f, g | f in files' && g in files' && f != g
      ensures f.number != g.number
      ensures f.number > g.number ==> NewerThan(Elements(f.entries), Elements(g.entries))
    {
      if g in files {
        assert Elements(g.entries) <= EntriesOf(files);
      }
    }
  }
}
