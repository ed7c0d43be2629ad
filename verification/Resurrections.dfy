/** A run in which a deleted value becomes readable again: `inputs_[1]` of a
    compaction is not extended by boundary files, so a tombstone can be dropped
    while an older value of its key stays behind in the next file of the level. */
module Resurrections {
  import opened InternalKeys
  import opened Versions
  import opened Inputs
  import opened Compactions
  import opened Shapes
  import opened Runs

  const OLD_TWO: Entry := Entry(InternalKey(2, 1, TypeValue), [])
  const OLD_ONE_KEY: InternalKey := InternalKey(1, 2, TypeValue)
  const DELETE_TWO: Entry := Entry(InternalKey(2, 3, TypeDeletion), [])
  const NEW_ONE: Entry := Entry(InternalKey(1, 4, TypeValue), [])

  /** Key 1's first value is free: one of the right length makes an output file
      reach its size limit with the tombstone. */
  function OldOne(v: Bytes): Entry {
    Entry(OLD_ONE_KEY, v)
  }

  function Second(v: Bytes): seq<Entry> {
    [OldOne(v), DELETE_TWO]
  }

  const BOTTOM_FILE: File := File(2, OLD_TWO.key, OLD_TWO.key, [OLD_TWO])
  const NEXT_FILE: File := File(5, OLD_TWO.key, OLD_TWO.key, [OLD_TWO])
  const UPPER_FILE: File := File(6, NEW_ONE.key, NEW_ONE.key, [NEW_ONE])
  const LAST_FILE: File := File(7, NEW_ONE.key, NEW_ONE.key, [NEW_ONE])

  function FirstFile(v: Bytes): File {
    File(3, OLD_ONE_KEY, DELETE_TWO.key, Second(v))
  }

  function LowerFile(v: Bytes): File {
    File(4, OLD_ONE_KEY, DELETE_TWO.key, Second(v))
  }

  /** Only levels 1 and 2 hold files. */
  function TwoLevels(a: seq<File>, b: seq<File>): (r: Levels)
    ensures |r| == NUM_LEVELS && r[1] == a && r[2] == b
    ensures forall l :: 0 <= l < NUM_LEVELS && l != 1 && l != 2 ==> r[l] == []
  {
    [[], a, b, [], [], [], []]
  }

  lemma TwoFiles(f: File, g: File)
    ensures EntriesOf([f, g]) == Elements(f.entries) + Elements(g.entries)
  {
    assert forall x :: x in [f, g] <==> x == f || x == g;
  }

  lemma EntriesInTwoLevels(a: seq<File>, b: seq<File>)
    ensures EntriesIn(TwoLevels(a, b)) == EntriesOf(a) + EntriesOf(b)
  {
    var levels := TwoLevels(a, b);
    forall e ensures e in EntriesIn(levels) <==> e in EntriesOf(a) + EntriesOf(b) {
      if e in EntriesIn(levels) {
        var l :| 0 <= l < |levels| && e in EntriesOf(levels[l]);
        assert l == 1 || l == 2;
      } else {
        assert e !in EntriesOf(levels[1]) && e !in EntriesOf(levels[2]);
      }
    }
  }

  lemma FilesAreValid(v: Bytes)
    ensures FirstFile(v).Valid() && LowerFile(v).Valid()
    ensures BOTTOM_FILE.Valid() && NEXT_FILE.Valid() && UPPER_FILE.Valid() && LAST_FILE.Valid()
  {
  }

  lemma FileEntries(v: Bytes)
    ensures EntriesOf([BOTTOM_FILE]) == {OLD_TWO}
    ensures EntriesOf([FirstFile(v)]) == {OldOne(v), DELETE_TWO} == EntriesOf([LowerFile(v)])
    ensures EntriesOf([LowerFile(v), NEXT_FILE]) == {OldOne(v), DELETE_TWO, OLD_TWO}
    ensures EntriesOf([UPPER_FILE]) == {NEW_ONE} == EntriesOf([LAST_FILE])
    ensures EntriesOf([LAST_FILE, NEXT_FILE]) == {NEW_ONE, OLD_TWO}
    ensures EntriesOf([]) == {}
  {
    OneFile(BOTTOM_FILE);
    OneFile(FirstFile(v));
    OneFile(LowerFile(v));
    OneFile(UPPER_FILE);
    OneFile(LAST_FILE);
    TwoFiles(LowerFile(v), NEXT_FILE);
    TwoFiles(LAST_FILE, NEXT_FILE);
    assert Elements(Second(v)) == {OldOne(v), DELETE_TWO};
    assert Elements([OLD_TWO]) == {OLD_TWO} && Elements([NEW_ONE]) == {NEW_ONE};
  }

  // ---------------------------------------------------------------------
  // The run
  // ---------------------------------------------------------------------

  const PUT_TWO: Operation := Operation(2, TypeValue, [])
  const PUT_ONE: Operation := Operation(1, TypeValue, [])
  const DROP_TWO: Operation := Operation(2, TypeDeletion, [])

  function SecondBatch(v: Bytes): seq<Operation> {
    [Operation(1, TypeValue, v), DROP_TWO]
  }

  function FirstCompaction(v: Bytes): Action {
    Compact(1, [FirstFile(v)], [BOTTOM_FILE], [LowerFile(v), NEXT_FILE])
  }

  function LastCompaction(v: Bytes): Action {
    Compact(1, [UPPER_FILE], [LowerFile(v)], [LAST_FILE])
  }

  function Deleted(v: Bytes): set<Entry> {
    {OldOne(v), DELETE_TWO, OLD_TWO}
  }

  function Everything(v: Bytes): set<Entry> {
    {OldOne(v), DELETE_TWO, OLD_TWO, NEW_ONE}
  }

  const NONE: Levels := TwoLevels([], [])
  const BOTTOM: Levels := TwoLevels([], [BOTTOM_FILE])

  function Overlapping(v: Bytes): Levels {
    TwoLevels([FirstFile(v)], [BOTTOM_FILE])
  }

  function Split(v: Bytes): Levels {
    TwoLevels([], [LowerFile(v), NEXT_FILE])
  }

  function OverSplit(v: Bytes): Levels {
    TwoLevels([UPPER_FILE], [LowerFile(v), NEXT_FILE])
  }

  const LAST: Levels := TwoLevels([], [LAST_FILE, NEXT_FILE])

  /** The states after each action of the run. */
  function StateAfter(v: Bytes, i: nat): State {
    match i
    case 0 => State([], None, NO_FILES, 0, [], 2, {})
    case 1 => State([OLD_TWO], None, NO_FILES, 1, [], 2, {OLD_TWO})
    case 2 => State([], Some([OLD_TWO]), NO_FILES, 1, [], 2, {OLD_TWO})
    case 3 => State([], None, BOTTOM, 1, [], 3, {OLD_TWO})
    case 4 => State([], None, BOTTOM, 1, [1], 3, {OLD_TWO})
    case 5 => State(Second(v), None, BOTTOM, 3, [1], 3, Deleted(v))
    case 6 => State([], Some(Second(v)), BOTTOM, 3, [1], 3, Deleted(v))
    case 7 => State([], None, Overlapping(v), 3, [1], 4, Deleted(v))
    case 8 => State([], None, Split(v), 3, [1], 6, Deleted(v))
    case 9 => State([], None, Split(v), 3, [], 6, Deleted(v))
    case 10 => State([NEW_ONE], None, Split(v), 4, [], 6, Everything(v))
    case 11 => State([], Some([NEW_ONE]), Split(v), 4, [], 6, Everything(v))
    case 12 => State([], None, OverSplit(v), 4, [], 7, Everything(v))
    case _ => State([], None, LAST, 4, [], 8, Everything(v))
  }

  function ActionOf(v: Bytes, i: nat): Action {
    match i
    case 0 => Write([PUT_TWO])
    case 1 => SwitchMemTable
    case 2 => CompactMemTable(2)
    case 3 => NewSnapshot
    case 4 => Write(SecondBatch(v))
    case 5 => SwitchMemTable
    case 6 => CompactMemTable(1)
    case 7 => FirstCompaction(v)
    case 8 => ReleaseSnapshot(0)
    case 9 => Write([PUT_ONE])
    case 10 => SwitchMemTable
    case 11 => CompactMemTable(1)
    case _ => LastCompaction(v)
  }

  lemma FirstWrite(v: Bytes)
    ensures Step(StateAfter(v, 0), Write([PUT_TWO]), StateAfter(v, 1))
  {
    assert BatchEntries([PUT_TWO], 0) == [OLD_TWO];
    assert Elements([OLD_TWO]) == {OLD_TWO} && Elements([]) == {};
  }

  lemma SecondWrite(v: Bytes)
    ensures Step(StateAfter(v, 4), Write(SecondBatch(v)), StateAfter(v, 5))
  {
    assert BatchEntries(SecondBatch(v), 1) == Second(v);
    assert Elements(Second(v)) == {OldOne(v), DELETE_TWO} && Elements([]) == {};
  }

  lemma LastWrite(v: Bytes)
    ensures Step(StateAfter(v, 9), Write([PUT_ONE]), StateAfter(v, 10))
  {
    assert BatchEntries([PUT_ONE], 3) == [NEW_ONE];
    assert Elements([NEW_ONE]) == {NEW_ONE} && Elements([]) == {};
  }

  lemma SmallSteps(v: Bytes)
    ensures Step(StateAfter(v, 1), SwitchMemTable, StateAfter(v, 2))
    ensures Step(StateAfter(v, 3), NewSnapshot, StateAfter(v, 4))
    ensures Step(StateAfter(v, 5), SwitchMemTable, StateAfter(v, 6))
    ensures Step(StateAfter(v, 8), ReleaseSnapshot(0), StateAfter(v, 9))
    ensures Step(StateAfter(v, 10), SwitchMemTable, StateAfter(v, 11))
  {
    assert [1][..0] + [1][1..] == [] && [] + [1] == [1];
  }

  /** Into an empty tree a table goes as deep as it may. */
  lemma FlushToBottom(v: Bytes)
    ensures Step(StateAfter(v, 2), CompactMemTable(2), StateAfter(v, 3))
  {
    assert forall f :: f in [BOTTOM_FILE] <==> f == BOTTOM_FILE;
    assert Saved([BOTTOM_FILE], [], [BOTTOM_FILE]);
  }

  /** Above a file of level 2 with one of its keys it stops at level 1. */
  lemma FlushAbove(levels: Levels, file: File, bottom: seq<File>, f: File)
    requires levels == TwoLevels([], bottom) && f in bottom
    requires Overlaps(f, Some(file.smallest.user), Some(file.largest.user))
    ensures MayFlushTo(levels, 1, file) && Flushed(levels, 1, file, TwoLevels([file], bottom))
  {
    assert Meets(levels[2], file.smallest.user, file.largest.user);
    assert forall g :: g in [file] <==> g == file;
    assert Saved([file], [], [file]);
  }

  lemma FlushesAbove(v: Bytes)
    ensures Step(StateAfter(v, 6), CompactMemTable(1), StateAfter(v, 7))
    ensures Step(StateAfter(v, 11), CompactMemTable(1), StateAfter(v, 12))
  {
    FlushAbove(BOTTOM, FirstFile(v), [BOTTOM_FILE], BOTTOM_FILE);
    FlushAbove(Split(v), UPPER_FILE, [LowerFile(v), NEXT_FILE], LowerFile(v));
  }

  lemma WithoutItself(f: File)
    ensures Without([f], [f]) == []
  {
    assert [f][1..] == [];
  }

  lemma FirstInputs(v: Bytes)
    ensures ChosenInputs(Overlapping(v), 1, [FirstFile(v)], [BOTTOM_FILE])
  {
    WithoutItself(FirstFile(v));
    assert [BOTTOM_FILE][..0] == [];
    assert OverlappingFiles([BOTTOM_FILE], Some(1), Some(2)) == [BOTTOM_FILE];
    assert NextLevelInputs([BOTTOM_FILE], [FirstFile(v)], [BOTTOM_FILE], OLD_ONE_KEY, DELETE_TWO.key);
  }

  lemma FirstInstalled(v: Bytes)
    ensures Installed(Overlapping(v), 1, [FirstFile(v)], [BOTTOM_FILE], [LowerFile(v), NEXT_FILE], Split(v))
  {
    WithoutItself(FirstFile(v));
    WithoutItself(BOTTOM_FILE);
    assert Saved([], [], []) && Saved([LowerFile(v), NEXT_FILE], [], [LowerFile(v), NEXT_FILE]);
  }

  lemma FirstOutputs(v: Bytes)
    ensures AllValid([LowerFile(v), NEXT_FILE]) && Disjoint([LowerFile(v), NEXT_FILE])
    ensures Numbered([LowerFile(v), NEXT_FILE], 4, 6)
  {
    FilesAreValid(v);
  }

  /** Both versions of key 2 survive: the snapshot sees only the older one. */
  lemma AllSurvive(v: Bytes, levels: Levels)
    ensures Survivors(Deleted(v), levels, 1, 1) == Deleted(v)
  {
    assert forall e :: e in Deleted(v) ==> !Hidden(Deleted(v), 1, e) && !Obsolete(levels, 1, 1, e);
  }

  lemma FirstSurvivors(v: Bytes)
    ensures EntriesOf([LowerFile(v), NEXT_FILE])
         == Survivors(EntriesOf([FirstFile(v)]) + EntriesOf([BOTTOM_FILE]), Overlapping(v), 1, 1)
  {
    FileEntries(v);
    AllSurvive(v, Overlapping(v));
    assert {OldOne(v), DELETE_TWO} + {OLD_TWO} == Deleted(v);
  }

  lemma FirstCompacts(v: Bytes)
    ensures Step(StateAfter(v, 7), FirstCompaction(v), StateAfter(v, 8))
  {
    FirstInputs(v);
    FirstInstalled(v);
    FirstOutputs(v);
    FirstSurvivors(v);
  }

  lemma LastInputs(v: Bytes)
    ensures ChosenInputs(OverSplit(v), 1, [UPPER_FILE], [LowerFile(v)])
  {
    WithoutItself(UPPER_FILE);
    assert [LowerFile(v), NEXT_FILE][..1] == [LowerFile(v)] && [LowerFile(v)][..0] == [];
    assert OverlappingFiles([LowerFile(v)], Some(1), Some(1)) == [LowerFile(v)];
    assert NextLevelInputs([LowerFile(v), NEXT_FILE], [UPPER_FILE], [LowerFile(v)], NEW_ONE.key, NEW_ONE.key);
  }

  lemma LastInstalled(v: Bytes)
    ensures Installed(OverSplit(v), 1, [UPPER_FILE], [LowerFile(v)], [LAST_FILE], LAST)
  {
    var kept := Without([LowerFile(v), NEXT_FILE], [LowerFile(v)]);
    assert forall f :: f in kept <==> f == NEXT_FILE;
    WithoutItself(UPPER_FILE);
    assert Saved([], [], []) && Saved([LAST_FILE, NEXT_FILE], kept, [LAST_FILE]);
  }

  /** The newer version of key 1 hides the older, and the tombstone is obsolete. */
  lemma OneSurvives(v: Bytes)
    ensures Survivors({NEW_ONE} + {OldOne(v), DELETE_TWO}, OverSplit(v), 1, 4) == {NEW_ONE}
  {
    var inputs := {NEW_ONE} + {OldOne(v), DELETE_TWO};
    assert Hidden(inputs, 4, OldOne(v));
    assert BaseLevelFor(OverSplit(v), 1, 2);
    assert Obsolete(OverSplit(v), 1, 4, DELETE_TWO);
    assert !Dropped(inputs, OverSplit(v), 1, 4, NEW_ONE);
  }

  lemma LastOutputs(v: Bytes)
    ensures AllValid([LAST_FILE]) && Disjoint([LAST_FILE]) && Numbered([LAST_FILE], 7, 8)
  {
    FilesAreValid(v);
  }

  lemma LastSurvivors(v: Bytes)
    ensures EntriesOf([LAST_FILE])
         == Survivors(EntriesOf([UPPER_FILE]) + EntriesOf([LowerFile(v)]), OverSplit(v), 1, 4)
  {
    FileEntries(v);
    OneSurvives(v);
  }

  lemma LastCompacts(v: Bytes)
    ensures Step(StateAfter(v, 12), LastCompaction(v), StateAfter(v, 13))
  {
    LastInputs(v);
    LastInstalled(v);
    LastOutputs(v);
    LastSurvivors(v);
  }

  lemma EachIsStep(v: Bytes, i: nat)
    requires i < 13
    ensures Step(StateAfter(v, i), ActionOf(v, i), StateAfter(v, i + 1))
  {
    match i
    case 2 => FlushToBottom(v);
    case 6 => FlushesAbove(v);
    case 7 => FirstCompacts(v);
    case 11 => FlushesAbove(v);
    case 12 => LastCompacts(v);
    case 0 => FirstWrite(v);
    case 4 => SecondWrite(v);
    case 9 => LastWrite(v);
    case _ => SmallSteps(v);
  }

  lemma FinalEntries(v: Bytes)
    ensures Db(StateAfter(v, 13)) == {NEW_ONE, OLD_TWO}
  {
    FileEntries(v);
    EntriesInTwoLevels([], [LAST_FILE, NEXT_FILE]);
    assert MemEntries(StateAfter(v, 13)) == {};
  }

  lemma OldIsRead(db: set<Entry>)
    requires db == {NEW_ONE, OLD_TWO}
    ensures Reads(db, 2, 4, Some(OLD_TWO.value))
  {
    assert IsNewest(db, 2, 4, OLD_TWO);
    ReadIsResult(db, 2, 4, Some(OLD_TWO));
  }

  lemma DeletedIsRead(v: Bytes, h: set<Entry>)
    requires h == Everything(v)
    ensures Reads(h, 2, 4, None)
  {
    assert IsNewest(h, 2, 4, DELETE_TWO);
    ReadIsResult(h, 2, 4, Some(DELETE_TWO));
  }

  /** For any first value of key 1: a run of the code's own steps after which
      the last sequence number reads a value of key 2, although it was deleted
      and never written again. */
  lemma DeletedValueComesBack(v: Bytes) returns (states: seq<State>, actions: seq<Action>)
    ensures IsRun(states, actions)
    ensures Write(SecondBatch(v)) in actions
    ensures var s := states[|actions|];
      Reads(s.history, 2, s.lastSequence, None) && Reads(Db(s), 2, s.lastSequence, Some(OLD_TWO.value))
  {
    states := seq(14, i requires 0 <= i < 14 => StateAfter(v, i));
    actions := seq(13, i requires 0 <= i < 13 => ActionOf(v, i));
    forall i | 0 <= i < 13 ensures StepAt(states, actions, i) {
      EachIsStep(v, i);
    }
    assert actions[4] == Write(SecondBatch(v));
    FinalEntries(v);
    OldIsRead(Db(StateAfter(v, 13)));
    DeletedIsRead(v, Everything(v));
  }
}
