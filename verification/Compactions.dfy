/** Compaction: the drop rules, installing the outputs, and what they keep. */
module Compactions {
  import opened InternalKeys
  import opened Versions

  // ---------------------------------------------------------------------
  // The drop rules, as a property of an entry
  // ---------------------------------------------------------------------

  /** No file below level + 1 can hold `user`. */
  ghost predicate BaseLevelFor(levels: Levels, level: nat, user: UserKey) {
    forall l, f :: level + 2 <= l < |levels| && f in levels[l] ==> !(f.smallest.user <= user <= f.largest.user)
  }

  /** Rule (A): a newer input entry of the same user key is already visible to
      every live snapshot. */
  ghost predicate Hidden(inputs: set<Entry>, snapshot: SequenceNumber, e: Entry) {
    exists n :: n in inputs && n.key.user == e.key.user && n.key.sequence > e.key.sequence
                && n.key.sequence <= snapshot
  }

  /** The tombstone rule. */
  ghost predicate Obsolete(levels: Levels, level: nat, snapshot: SequenceNumber, e: Entry) {
    e.key.kind.TypeDeletion? && e.key.sequence <= snapshot && BaseLevelFor(levels, level, e.key.user)
  }

  ghost predicate Dropped(inputs: set<Entry>, levels: Levels, level: nat, snapshot: SequenceNumber, e: Entry) {
    Hidden(inputs, snapshot, e) || Obsolete(levels, level, snapshot, e)
  }

  ghost function Survivors(inputs: set<Entry>, levels: Levels, level: nat, snapshot: SequenceNumber): set<Entry> {
    set e | e in inputs && !Dropped(inputs, levels, level, snapshot, e)
  }

  /** The surviving entries of the first `n` of a merged input, in order. */
  ghost function SurvivorList(input: seq<Entry>, n: nat, levels: Levels, level: nat,
                              snapshot: SequenceNumber): seq<Entry>
    requires n <= |input|
  {
    if n == 0 then []
    else SurvivorList(input, n - 1, levels, level, snapshot)
         + (if Dropped(Elements(input), levels, level, snapshot, input[n - 1]) then [] else [input[n - 1]])
  }

  lemma {:induction false} SurvivorListElements(input: seq<Entry>, n: nat, levels: Levels, level: nat,
                                                snapshot: SequenceNumber, e: Entry)
    requires n <= |input|
    ensures e in SurvivorList(input, n, levels, level, snapshot) <==>
      e in input[..n] && !Dropped(Elements(input), levels, level, snapshot, e)
  {
    if n > 0 {
      SurvivorListElements(input, n - 1, levels, level, snapshot, e);
      assert input[..n] == input[..n - 1] + [input[n - 1]];
    }
  }

  lemma SurvivorStep(input: seq<Entry>, n: nat, levels: Levels, level: nat, snapshot: SequenceNumber,
                     outputs: seq<File>, builder: seq<Entry>)
    requires n < |input| && Written(outputs, builder) == SurvivorList(input, n, levels, level, snapshot)
    ensures SurvivorList(input, n + 1, levels, level, snapshot) ==
      if Dropped(Elements(input), levels, level, snapshot, input[n]) then Written(outputs, builder)
      else Written(outputs, builder + [input[n]])
  {
    assert Concat(outputs) + (builder + [input[n]]) == (Concat(outputs) + builder) + [input[n]];
    assert Concat(outputs) + [] == Concat(outputs);
  }

  lemma {:induction false} SurvivorListSorted(input: seq<Entry>, n: nat, levels: Levels, level: nat,
                                              snapshot: SequenceNumber)
    requires n <= |input| && Sorted(input)
    ensures Sorted(SurvivorList(input, n, levels, level, snapshot))
  {
    if n > 0 {
      SurvivorListSorted(input, n - 1, levels, level, snapshot);
      var shorter := SurvivorList(input, n - 1, levels, level, snapshot);
      forall i | 0 <= i < |shorter| ensures Before(shorter[i].key, input[n - 1].key) {
        SurvivorListElements(input, n - 1, levels, level, snapshot, shorter[i]);
      }
    }
  }

  // ---------------------------------------------------------------------
  // What must go
  // ---------------------------------------------------------------------

  /** At or below the smallest snapshot there is at most one entry of each user key. */
  ghost predicate OneVisible(entries: set<Entry>, snapshot: SequenceNumber) {
    forall x, y :: x in entries && y in entries && x != y && x.key.user == y.key.user ==>
      x.key.sequence > snapshot || y.key.sequence > snapshot
  }

  /** Some file below level + 1 has `user` in its range. */
  ghost predicate DeeperFileFor(levels: Levels, level: nat, user: UserKey) {
    exists l, f :: level + 2 <= l < |levels| && f in levels[l] && f.smallest.user <= user <= f.largest.user
  }

  /** A tombstone at or below the smallest snapshot is there for a deeper file's sake. */
  ghost predicate TombstonesNeeded(entries: set<Entry>, levels: Levels, level: nat, snapshot: SequenceNumber) {
    forall e :: e in entries && e.key.kind.TypeDeletion? && e.key.sequence <= snapshot ==>
      DeeperFileFor(levels, level, e.key.user)
  }

  lemma KeptIsNeeded(inputs: set<Entry>, levels: Levels, level: nat, snapshot: SequenceNumber, e: Entry)
    requires e in inputs && !Dropped(inputs, levels, level, snapshot, e)
    ensures forall n :: n in inputs && n.key.user == e.key.user && n.key.sequence > e.key.sequence ==>
      n.key.sequence > snapshot
    ensures e.key.kind.TypeDeletion? && e.key.sequence <= snapshot ==> DeeperFileFor(levels, level, e.key.user)
  {
    assert !Hidden(inputs, snapshot, e) && !Obsolete(levels, level, snapshot, e);
    if e.key.kind.TypeDeletion? && e.key.sequence <= snapshot {
      var l, f :| level + 2 <= l < |levels| && f in levels[l] && f.smallest.user <= e.key.user <= f.largest.user;
    }
  }

  /** Of the entries that survive, none could have gone. */
  lemma NothingElseCouldGo(inputs: set<Entry>, levels: Levels, level: nat, snapshot: SequenceNumber)
    requires UniqueSequences(inputs)
    ensures OneVisible(Survivors(inputs, levels, level, snapshot), snapshot)
    ensures TombstonesNeeded(Survivors(inputs, levels, level, snapshot), levels, level, snapshot)
  {
    var survivors := Survivors(inputs, levels, level, snapshot);
    forall x, y | x in survivors && y in survivors && x != y && x.key.user == y.key.user
      ensures x.key.sequence > snapshot || y.key.sequence > snapshot
    {
      KeptIsNeeded(inputs, levels, level, snapshot, x);
      KeptIsNeeded(inputs, levels, level, snapshot, y);
    }
    forall e | e in survivors && e.key.kind.TypeDeletion? && e.key.sequence <= snapshot
      ensures DeeperFileFor(levels, level, e.key.user)
    {
      KeptIsNeeded(inputs, levels, level, snapshot, e);
    }
  }

  lemma SurvivorsOfList(input: seq<Entry>, levels: Levels, level: nat, snapshot: SequenceNumber)
    ensures Elements(SurvivorList(input, |input|, levels, level, snapshot))
         == Survivors(Elements(input), levels, level, snapshot)
  {
    var inputs := Elements(input);
    assert input[..|input|] == input;
    forall e ensures e in Elements(SurvivorList(input, |input|, levels, level, snapshot))
                 <==> e in Survivors(inputs, levels, level, snapshot)
    {
      SurvivorListElements(input, |input|, levels, level, snapshot, e);
    }
  }

  // ---------------------------------------------------------------------
  // DoCompactionWork
  // ---------------------------------------------------------------------

  function Concat(files: seq<File>): seq<Entry> {
    if files == [] then [] else Concat(files[..|files| - 1]) + files[|files| - 1].entries
  }

  /** The finished output files followed by the entries of the open one. */
  function Written(outputs: seq<File>, builder: seq<Entry>): seq<Entry> {
    if builder == [] then Concat(outputs) else Concat(outputs) + builder
  }

  class Compaction {
    const levels: Levels
    const level: nat
    var levelPtrs: seq<nat>

    ghost predicate Valid()
      reads this
    {
      && |levels| == NUM_LEVELS
      && level + 1 < NUM_LEVELS
      && |levelPtrs| == NUM_LEVELS
      && (forall l :: level + 2 <= l < NUM_LEVELS ==> Disjoint(levels[l]) && levelPtrs[l] <= |levels[l]|)
    }

    /** The cursors have only passed files that end before `user`. */
    ghost predicate Behind(user: UserKey)
      requires Valid()
      reads this
    {
      forall l, k :: level + 2 <= l < NUM_LEVELS && 0 <= k < levelPtrs[l] ==> levels[l][k].largest.user < user
    }

    constructor (levels: Levels, level: nat)
      requires |levels| == NUM_LEVELS && level + 1 < NUM_LEVELS
      requires forall l :: level + 2 <= l < NUM_LEVELS ==> Disjoint(levels[l])
      ensures Valid() && this.levels == levels && this.level == level
      ensures forall user :: Behind(user)
    {
      this.levels, this.level := levels, level;
      this.levelPtrs := seq(NUM_LEVELS, _ => 0);
    }

    /** The cursors only move forward; for nondecreasing keys the answer is that
        of a full scan. */
    method IsBaseLevelForKey(user: UserKey) returns (b: bool)
      requires Valid() && Behind(user)
      modifies this`levelPtrs
      ensures Valid()
      ensures forall later :: user <= later ==> Behind(later)
      ensures b <==> BaseLevelFor(levels, level, user)
    {
      for lvl := level + 2 to NUM_LEVELS
        invariant Valid() && Behind(user)
        invariant forall l, f :: level + 2 <= l < lvl && f in levels[l] ==> !(f.smallest.user <= user <= f.largest.user)
      {
        var files := levels[lvl];
        while levelPtrs[lvl] < |files|
          invariant Valid() && Behind(user)
          decreases |files| - levelPtrs[lvl]
        {
          var f := files[levelPtrs[lvl]];
          if user <= f.largest.user {
            if user >= f.smallest.user {
              return false;
            }
            break;
          }
          levelPtrs := levelPtrs[lvl := levelPtrs[lvl] + 1];
        }
        PastCursor(files, levelPtrs[lvl], user);
      }
      return true;
    }

    /** The decision about one input entry; the other arguments are the loop's
        `current_user_key` and `last_sequence_for_key`. */
    method ShouldDrop(ghost input: seq<Entry>, ghost i: nat, key: InternalKey, currentUserKey: Option<UserKey>,
                      lastSequenceForKey: SequenceNumber, snapshot: SequenceNumber)
      returns (drop: bool)
      requires Valid() && Behind(key.user)
      requires i < |input| && Sorted(input) && UniqueSequences(Elements(input)) && key == input[i].key
      requires currentUserKey == if i == 0 then None else Some(input[i - 1].key.user)
      requires i > 0 ==> lastSequenceForKey == input[i - 1].key.sequence
      requires snapshot < MAX_SEQUENCE
      modifies this`levelPtrs
      ensures Valid() && forall later :: key.user <= later ==> Behind(later)
      ensures drop <==> Dropped(Elements(input), levels, level, snapshot, input[i])
      ensures !drop ==> forall n :: n in input && n.key.user == key.user && n.key.sequence > key.sequence ==>
        n.key.sequence > snapshot
      ensures !drop && key.kind.TypeDeletion? && key.sequence <= snapshot ==> DeeperFileFor(levels, level, key.user)
    {
      drop := false;
      var last := lastSequenceForKey;
      if currentUserKey != Some(key.user) {
        last := MAX_SEQUENCE;
      }
      HiddenIsPrevious(input, i, snapshot);
      if last <= snapshot {
        drop := true;
      } else if key.kind.TypeDeletion? && key.sequence <= snapshot {
        drop := IsBaseLevelForKey(key.user);
      }
      if !drop {
        KeptIsNeeded(Elements(input), levels, level, snapshot, input[i]);
      }
    }

    /** The finished outputs and the open file hold the survivors of the first `n` inputs. */
    ghost predicate Progress(outputs: seq<File>, builder: seq<Entry>, input: seq<Entry>, n: nat,
                             snapshot: SequenceNumber, lo: nat, next: nat)
      requires n <= |input|
    {
      && Written(outputs, builder) == SurvivorList(input, n, levels, level, snapshot)
      && AllValid(outputs)
      && lo <= next
      && Numbered(outputs, lo, next)
    }

    /** `FinishCompactionOutputFile`: the file's metadata are its first and last key. */
    method FinishOutput(outputs: seq<File>, builder: seq<Entry>, number: nat, ghost input: seq<Entry>, ghost n: nat,
                        ghost snapshot: SequenceNumber, ghost lo: nat)
      returns (r: seq<File>)
      requires builder != [] && n <= |input| && Sorted(input)
      requires Progress(outputs, builder, input, n, snapshot, lo, number)
      ensures r == outputs + [File(number, builder[0].key, builder[|builder| - 1].key, builder)]
      ensures Progress(r, [], input, n, snapshot, lo, number + 1)
    {
      SurvivorListSorted(input, n, levels, level, snapshot);
      SuffixSorted(Concat(outputs), builder);
      var file := File(number, builder[0].key, builder[|builder| - 1].key, builder);
      AppendFile(outputs, file, lo);
      r := outputs + [file];
    }

    /** `ShouldStopBefore`: perhaps close the open file before the next entry. */
    method StopBefore(outputs: seq<File>, builder: seq<Entry>, next: nat, ghost input: seq<Entry>, ghost n: nat,
                      ghost snapshot: SequenceNumber, ghost lo: nat)
      returns (r: seq<File>, builder': seq<Entry>, next': nat)
      requires n <= |input| && Sorted(input)
      requires Progress(outputs, builder, input, n, snapshot, lo, next)
      ensures Progress(r, builder', input, n, snapshot, lo, next')
    {
      r, builder', next' := outputs, builder, next;
      if builder != [] {
        if * {
          r := FinishOutput(outputs, builder, next, input, n, snapshot, lo);
          builder', next' := [], next + 1;
        }
      }
    }

    /** One iteration after the drop decision: add the entry, perhaps close the file. */
    method AddToOutput(outputs: seq<File>, builder: seq<Entry>, next: nat, entry: Entry, ghost input: seq<Entry>,
                       ghost n: nat, ghost snapshot: SequenceNumber, ghost lo: nat)
      returns (r: seq<File>, builder': seq<Entry>, next': nat)
      requires n < |input| && Sorted(input) && entry == input[n]
      requires Progress(outputs, builder, input, n, snapshot, lo, next)
      requires !Dropped(Elements(input), levels, level, snapshot, entry)
      ensures Progress(r, builder', input, n + 1, snapshot, lo, next')
    {
      SurvivorStep(input, n, levels, level, snapshot, outputs, builder);
      r, builder', next' := outputs, builder + [entry], next;
      if * {
        r := FinishOutput(r, builder', next', input, n + 1, snapshot, lo);
        builder', next' := [], next' + 1;
      }
    }

    /** The compaction loop over the merged input.  Where an output file ends
        (its size, grandparent overlap) is left open. */
    method DoCompactionWork(input: seq<Entry>, snapshot: SequenceNumber, nextNumber: nat)
      returns (outputs: seq<File>, newNext: nat)
      requires Valid() && forall user :: Behind(user)
      requires Sorted(input) && UniqueSequences(Elements(input))
      requires snapshot < MAX_SEQUENCE
      modifies this`levelPtrs
      ensures Concat(outputs) == SurvivorList(input, |input|, levels, level, snapshot)
      ensures OneVisible(Elements(Concat(outputs)), snapshot)
      ensures TombstonesNeeded(Elements(Concat(outputs)), levels, level, snapshot)
      ensures AllValid(outputs) && Disjoint(outputs)
      ensures newNext >= nextNumber && Numbered(outputs, nextNumber, newNext)
    {
      outputs, newNext := [], nextNumber;
      var builder: seq<Entry> := [];
      var currentUserKey: Option<UserKey> := None;
      var lastSequenceForKey: SequenceNumber := MAX_SEQUENCE;
      var i := 0;
      while i < |input|
        invariant 0 <= i <= |input|
        invariant Valid()
        invariant currentUserKey == if i == 0 then None else Some(input[i - 1].key.user)
        invariant i > 0 ==> lastSequenceForKey == input[i - 1].key.sequence
        invariant forall user :: (i == 0 || input[i - 1].key.user <= user) ==> Behind(user)
        invariant Progress(outputs, builder, input, i, snapshot, nextNumber, newNext)
      {
        var entry := input[i];
        outputs, builder, newNext := StopBefore(outputs, builder, newNext, input, i, snapshot, nextNumber);
        assert i > 0 ==> Before(input[i - 1].key, input[i].key);
        var drop := ShouldDrop(input, i, entry.key, currentUserKey, lastSequenceForKey, snapshot);
        currentUserKey := Some(entry.key.user);
        lastSequenceForKey := entry.key.sequence;
        if !drop {
          outputs, builder, newNext :=
            AddToOutput(outputs, builder, newNext, entry, input, i, snapshot, nextNumber);
        } else {
          DropEntry(outputs, builder, newNext, input, i, snapshot, nextNumber);
        }
        i := i + 1;
      }
      if builder != [] {
        outputs := FinishOutput(outputs, builder, newNext, input, i, snapshot, nextNumber);
        builder, newNext := [], newNext + 1;
      }
      AllWritten(outputs, newNext, input, snapshot, nextNumber);
      SurvivorsOfList(input, levels, level, snapshot);
      NothingElseCouldGo(Elements(input), levels, level, snapshot);
    }

    lemma DropEntry(outputs: seq<File>, builder: seq<Entry>, next: nat, input: seq<Entry>, n: nat,
                    snapshot: SequenceNumber, lo: nat)
      requires n < |input| && Dropped(Elements(input), levels, level, snapshot, input[n])
      requires Progress(outputs, builder, input, n, snapshot, lo, next)
      ensures Progress(outputs, builder, input, n + 1, snapshot, lo, next)
    {
      SurvivorStep(input, n, levels, level, snapshot, outputs, builder);
    }

    lemma AllWritten(outputs: seq<File>, next: nat, input: seq<Entry>, snapshot: SequenceNumber, lo: nat)
      requires Sorted(input) && Progress(outputs, [], input, |input|, snapshot, lo, next)
      ensures Concat(outputs) == SurvivorList(input, |input|, levels, level, snapshot)
      ensures AllValid(outputs) && Disjoint(outputs)
      ensures lo <= next && Numbered(outputs, lo, next)
    {
      SurvivorListSorted(input, |input|, levels, level, snapshot);
      PiecesAreDisjoint(outputs);
    }
  }

  /** Output files carry fresh, increasing numbers. */
  predicate Numbered(outputs: seq<File>, lo: nat, hi: nat) {
    && (forall i :: 0 <= i < |outputs| ==> lo <= outputs[i].number < hi)
    && (forall i, j :: 0 <= i < j < |outputs| ==> outputs[i].number < outputs[j].number)
  }

  lemma AppendFile(outputs: seq<File>, file: File, lo: nat)
    requires AllValid(outputs) && file.Valid()
    requires lo <= file.number && Numbered(outputs, lo, file.number)
    ensures AllValid(outputs + [file]) && Numbered(outputs + [file], lo, file.number + 1)
    ensures Written(outputs + [file], []) == Written(outputs, file.entries)
  {
    assert (outputs + [file])[..|outputs|] == outputs;
  }

  lemma PastCursor(files: seq<File>, ptr: nat, user: UserKey)
    requires Disjoint(files) && ptr <= |files|
    requires forall k :: 0 <= k < ptr ==> files[k].largest.user < user
    requires ptr < |files| ==> user < files[ptr].smallest.user
    ensures forall f :: f in files ==> !(f.smallest.user <= user <= f.largest.user)
  {
    LargestAscend(files);
  }

  /** In sorted input, rule (A) only has to look at the previous entry. */
  lemma HiddenIsPrevious(input: seq<Entry>, i: nat, snapshot: SequenceNumber)
    requires i < |input| && Sorted(input) && UniqueSequences(Elements(input))
    ensures Hidden(Elements(input), snapshot, input[i]) <==>
      i > 0 && input[i - 1].key.user == input[i].key.user && input[i - 1].key.sequence <= snapshot
  {
    if Hidden(Elements(input), snapshot, input[i]) {
      var n :| n in Elements(input) && n.key.user == input[i].key.user && n.key.sequence > input[i].key.sequence
               && n.key.sequence <= snapshot;
      var j :| 0 <= j < |input| && input[j] == n;
      assert j < i;
      assert j == i - 1 || Before(input[j].key, input[i - 1].key);
    }
    if i > 0 && input[i - 1].key.user == input[i].key.user {
      assert input[i - 1] in Elements(input) && input[i] in Elements(input);
      assert Before(input[i - 1].key, input[i].key);
    }
  }

  lemma SuffixSorted(a: seq<Entry>, b: seq<Entry>)
    requires Sorted(a + b)
    ensures Sorted(a) && Sorted(b)
    ensures forall i, j :: 0 <= i < |a| && 0 <= j < |b| ==> Before(a[i].key, b[j].key)
  {
    var ab := a + b;
    assert forall i :: 0 <= i < |a| ==> a[i] == ab[i];
    assert forall j :: 0 <= j < |b| ==> b[j] == ab[|a| + j];
  }

  lemma {:induction false} ConcatElements(files: seq<File>)
    ensures EntriesOf(files) == Elements(Concat(files))
  {
    if files != [] {
      var n := |files| - 1;
      ConcatElements(files[..n]);
      assert files == files[..n] + [files[n]];
      assert EntriesOf(files) == EntriesOf(files[..n]) + Elements(files[n].entries);
    }
  }

  /** Cutting a sorted sequence into files gives disjoint files in order. */
  lemma {:induction false} PiecesAreDisjoint(files: seq<File>)
    requires AllValid(files) && Sorted(Concat(files))
    ensures Disjoint(files)
  {
    if files != [] {
      var n := |files| - 1;
      var init := files[..n];
      assert forall k :: 0 <= k < n ==> init[k] == files[k];
      SuffixSorted(Concat(init), files[n].entries);
      PiecesAreDisjoint(init);
      assert files[n] in files && files[n].Valid();
      EntryInRange(files[n], files[n].entries[0]);
      forall i | 0 <= i < n ensures Before(files[i].largest, files[n].smallest) {
        assert init[i] in init;
        var e := LastEntry(init[i]);
        ConcatElements(init);
        assert e in EntriesOf(init);
        assert e in Concat(init);
      }
    }
  }
}
