/** Installing a compaction's outputs: which reads and which shape it keeps. */
module Installs {
  import opened InternalKeys
  import opened Versions
  import opened Inputs
  import opened Compactions

  // ---------------------------------------------------------------------
  // Reads
  // ---------------------------------------------------------------------

  /** The one way a compaction can change a read: it drops the tombstone that is
      the newest entry of `user` at the snapshot, and what stays behind has an
      older value of that key. */
  ghost predicate Exposes(db: set<Entry>, inputs: set<Entry>, levels: Levels, level: nat,
                          snapshot: SequenceNumber, user: UserKey) {
    exists t, v ::
      && t in inputs && t.key.user == user && Obsolete(levels, level, snapshot, t)
      && IsNewest(db, user, snapshot, t)
      && IsNewest(db - inputs, user, snapshot, v) && v.key.kind.TypeValue?
  }

  /** The database after replacing the inputs by their survivors. */
  ghost function AfterDrop(db: set<Entry>, inputs: set<Entry>, levels: Levels, level: nat,
                           snapshot: SequenceNumber): set<Entry> {
    (db - inputs) + Survivors(inputs, levels, level, snapshot)
  }

  /** Every read at the smallest snapshot or later is kept if and only if no
      dropped tombstone exposes an older value. */
  lemma CompactionPreservesReads(db: set<Entry>, inputs: set<Entry>, levels: Levels, level: nat,
                                 snapshot: SequenceNumber)
    requires UniqueSequences(db) && inputs <= db
    ensures (forall user, s: SequenceNumber :: s >= snapshot ==>
              SameRead(db, AfterDrop(db, inputs, levels, level, snapshot), user, s))
       <==> (forall user :: !Exposes(db, inputs, levels, level, snapshot, user))
  {
    var after := AfterDrop(db, inputs, levels, level, snapshot);
    if forall user, s: SequenceNumber :: s >= snapshot ==> SameRead(db, after, user, s) {
      forall user ensures !Exposes(db, inputs, levels, level, snapshot, user) {
        assert SameRead(db, after, user, snapshot);
        if Exposes(db, inputs, levels, level, snapshot, user) {
          ExposureChangesRead(db, inputs, levels, level, snapshot, user);
        }
      }
    }
    if forall user :: !Exposes(db, inputs, levels, level, snapshot, user) {
      forall user, s: SequenceNumber | s >= snapshot ensures SameRead(db, after, user, s) {
        UnexposedReadIsKept(db, inputs, levels, level, snapshot, user, s);
      }
    }
  }

  lemma UnexposedReadIsKept(db: set<Entry>, inputs: set<Entry>, levels: Levels, level: nat,
                            snapshot: SequenceNumber, user: UserKey, s: SequenceNumber)
    requires UniqueSequences(db) && inputs <= db && s >= snapshot
    requires !Exposes(db, inputs, levels, level, snapshot, user)
    ensures SameRead(db, AfterDrop(db, inputs, levels, level, snapshot), user, s)
  {
    var after := AfterDrop(db, inputs, levels, level, snapshot);
    assert after <= db;
    var r := NewestExists(db, user, s);
    var r' := NewestExists(after, user, s);
    ReadIsResult(db, user, s, r);
    ReadIsResult(after, user, s, r');
    if r.Some? && r.value in after {
      assert IsNewest(after, user, s, r.value);
    } else if r.Some? {
      DroppedNewestIsObsolete(db, inputs, levels, level, snapshot, user, s, r.value);
      if r'.Some? {
        OlderSurvivorStaysBehind(db, inputs, levels, level, snapshot, user, s, r.value, r'.value);
      }
    }
  }

  lemma DroppedNewestIsObsolete(db: set<Entry>, inputs: set<Entry>, levels: Levels, level: nat,
                                snapshot: SequenceNumber, user: UserKey, s: SequenceNumber, e: Entry)
    requires inputs <= db && s >= snapshot
    requires IsNewest(db, user, s, e) && e !in AfterDrop(db, inputs, levels, level, snapshot)
    ensures e in inputs && Obsolete(levels, level, snapshot, e)
    ensures IsNewest(db, user, snapshot, e)
  {
    assert e in inputs && Dropped(inputs, levels, level, snapshot, e);
    assert !Hidden(inputs, snapshot, e);
  }

  lemma OlderSurvivorStaysBehind(db: set<Entry>, inputs: set<Entry>, levels: Levels, level: nat,
                                 snapshot: SequenceNumber, user: UserKey, s: SequenceNumber, t: Entry, v: Entry)
    requires UniqueSequences(db) && inputs <= db && s >= snapshot
    requires !Exposes(db, inputs, levels, level, snapshot, user)
    requires IsNewest(db, user, s, t) && t in inputs && Obsolete(levels, level, snapshot, t)
    requires t !in AfterDrop(db, inputs, levels, level, snapshot)
    requires IsNewest(db, user, snapshot, t)
    requires IsNewest(AfterDrop(db, inputs, levels, level, snapshot), user, s, v)
    ensures v.key.kind.TypeDeletion?
  {
    assert v in db && v != t;
    assert Hidden(inputs, snapshot, v);
    assert v in db - inputs;
    forall o | o in db - inputs && Visible(o, user, snapshot) ensures o.key.sequence <= v.key.sequence {
      assert o in AfterDrop(db, inputs, levels, level, snapshot);
    }
    assert IsNewest(db - inputs, user, snapshot, v);
  }

  lemma ExposureChangesRead(db: set<Entry>, inputs: set<Entry>, levels: Levels, level: nat,
                            snapshot: SequenceNumber, user: UserKey)
    requires UniqueSequences(db) && inputs <= db
    requires Exposes(db, inputs, levels, level, snapshot, user)
    ensures !SameRead(db, AfterDrop(db, inputs, levels, level, snapshot), user, snapshot)
  {
    var after := AfterDrop(db, inputs, levels, level, snapshot);
    var t, v :| t in inputs && t.key.user == user && Obsolete(levels, level, snapshot, t)
                && IsNewest(db, user, snapshot, t)
                && IsNewest(db - inputs, user, snapshot, v) && v.key.kind.TypeValue?;
    assert after <= db;
    forall o | o in after && Visible(o, user, snapshot) ensures o.key.sequence <= v.key.sequence {
      assert o.key.sequence < t.key.sequence ==> Hidden(inputs, snapshot, o);
    }
    assert IsNewest(after, user, snapshot, v);
    ReadIsResult(db, user, snapshot, Some(t));
    ReadIsResult(after, user, snapshot, Some(v));
    assert Reads(after, user, snapshot, Some(v.value)) && !Reads(db, user, snapshot, Some(v.value));
  }

  /** With inputs chosen as the code does, an exposed value can only be in a file
      of the next level left behind, below a tombstone of `inputs_[1]`. */
  lemma ExposureIsInNextLevel(above: set<Entry>, levels: Levels, level: nat, in0: seq<File>, in1: seq<File>,
                              t: Entry, v: Entry, snapshot: SequenceNumber)
    requires Shape(levels) && ChosenInputs(levels, level, in0, in1)
    requires NewerThan(above, EntriesIn(levels))
    requires t in EntriesOf(in0) + EntriesOf(in1) && Obsolete(levels, level, snapshot, t)
    requires v in above + EntriesIn(levels) && v !in EntriesOf(in0) + EntriesOf(in1)
    requires v.key.user == t.key.user && v.key.sequence < t.key.sequence
    ensures t in EntriesOf(in1) && v in EntriesOf(Without(levels[level + 1], in1))
  {
    InputsAreInLevels(levels, level, in0, in1);
    StoredBeside(above, levels, level, in0, in1, t, v);
    var l, g := LocateNear(levels, level, v, t, snapshot);
    if l == level {
      LeftBehindIsNewer(levels, level, in0, in1, g, v, t);
    } else {
      LeftBehindBelow(levels[level], levels[level + 1], in0, in1, g, v, t);
    }
  }

  /** `v` is older than an entry of the inputs, so it is not in a memtable. */
  lemma StoredBeside(above: set<Entry>, levels: Levels, level: nat, in0: seq<File>, in1: seq<File>, t: Entry, v: Entry)
    requires level + 1 < |levels| && NewerThan(above, EntriesIn(levels))
    requires EntriesOf(in0) <= EntriesOf(levels[level]) && EntriesOf(in1) <= EntriesOf(levels[level + 1])
    requires t in EntriesOf(in0) + EntriesOf(in1) && v in above + EntriesIn(levels)
    requires v.key.user == t.key.user && v.key.sequence < t.key.sequence
    ensures v in EntriesIn(levels)
    ensures t in EntriesOf(levels[level]) || t in EntriesOf(levels[level + 1])
  {
    LevelsPart(levels, level);
    LevelsPart(levels, level + 1);
  }

  /** An entry older than an obsolete tombstone of the two levels is in one of them. */
  lemma LocateNear(levels: Levels, level: nat, v: Entry, t: Entry, snapshot: SequenceNumber) returns (l: nat, g: File)
    requires Shape(levels) && level + 1 < NUM_LEVELS && v in EntriesIn(levels)
    requires t in EntriesOf(levels[level]) || t in EntriesOf(levels[level + 1])
    requires v.key.user == t.key.user && v.key.sequence < t.key.sequence && Obsolete(levels, level, snapshot, t)
    ensures level <= l <= level + 1 && g in levels[l] && v in g.entries
  {
    NotShallower(levels, level, v, t);
    l, g := Locate(levels, v);
    NotDeeper(levels, level, l, g, t.key.user);
  }

  lemma OlderIsNotAbove(above: set<Entry>, below: set<Entry>, v: Entry, t: Entry)
    requires NewerThan(above, below) && t in below && v.key.user == t.key.user && v.key.sequence < t.key.sequence
    ensures v !in above
  {
  }

  lemma NotShallower(levels: Levels, level: nat, v: Entry, t: Entry)
    requires Shape(levels) && level + 1 < NUM_LEVELS
    requires t in EntriesOf(levels[level]) || t in EntriesOf(levels[level + 1])
    requires v.key.user == t.key.user && v.key.sequence < t.key.sequence
    ensures forall l :: 0 <= l < level ==> v !in EntriesOf(levels[l])
  {
    var at := if t in EntriesOf(levels[level]) then level else level + 1;
    forall l | 0 <= l < level ensures v !in EntriesOf(levels[l]) {
      OlderIsNotAbove(EntriesOf(levels[l]), EntriesOf(levels[at]), v, t);
    }
  }

  lemma NotDeeper(levels: Levels, level: nat, l: nat, g: File, user: UserKey)
    requires BaseLevelFor(levels, level, user) && l < |levels|
    requires g in levels[l] && g.smallest.user <= user <= g.largest.user
    ensures l <= level + 1
  {
  }

  lemma LevelsPart(levels: Levels, l: nat)
    requires l < |levels|
    ensures EntriesOf(levels[l]) <= EntriesIn(levels)
  {
  }

  lemma Locate(levels: Levels, e: Entry) returns (l: nat, g: File)
    requires e in EntriesIn(levels) && |levels| == NUM_LEVELS
    requires forall k :: 0 <= k < NUM_LEVELS ==> AllValid(levels[k])
    ensures l < |levels| && g in levels[l] && e in g.entries && e in EntriesOf(levels[l])
    ensures g.smallest.user <= e.key.user <= g.largest.user
  {
    l :| 0 <= l < |levels| && e in EntriesOf(levels[l]);
    g :| g in levels[l] && e in g.entries;
    EntryInRange(g, e);
  }

  lemma InputsAreInLevels(levels: Levels, level: nat, in0: seq<File>, in1: seq<File>)
    requires ChosenInputs(levels, level, in0, in1)
    ensures forall f :: f in in0 ==> f in levels[level]
    ensures forall f :: f in in1 ==> f in levels[level + 1]
    ensures EntriesOf(in0) <= EntriesOf(levels[level])
    ensures EntriesOf(in1) <= EntriesOf(levels[level + 1])
  {
    var lo, hi := RangeOfInputs(levels[level + 1], in0, in1);
    forall f | f in in1 ensures f in levels[level + 1] {
      OverlappingMembers(levels[level + 1], Some(lo), Some(hi), f);
    }
  }

  lemma LeftBehindIsNewer(levels: Levels, level: nat, in0: seq<File>, in1: seq<File>, g: File, v: Entry, t: Entry)
    requires Shape(levels) && ChosenInputs(levels, level, in0, in1)
    requires g in levels[level] && v in g.entries && v !in EntriesOf(in0)
    requires t in EntriesOf(in0) + EntriesOf(in1) && v.key.user == t.key.user
    ensures v.key.sequence > t.key.sequence
  {
    InputsAreInLevels(levels, level, in0, in1);
    if t in EntriesOf(in0) {
      assert v in EntriesOf(Without(levels[level], in0));
    } else {
      assert v in EntriesOf(levels[level]) && t in EntriesOf(levels[level + 1]);
    }
  }

  lemma LeftBehindBelow(files: seq<File>, next: seq<File>, in0: seq<File>, in1: seq<File>, g: File, v: Entry, t: Entry)
    requires AllValid(files) && AllValid(next) && (forall f :: f in in0 ==> f in files)
    requires HasNextLevelInputs(next, in0, in1)
    requires g in next && v in g.entries && v !in EntriesOf(in1)
    requires t in EntriesOf(in0) + EntriesOf(in1) && v.key.user == t.key.user
    ensures t in EntriesOf(in1) && v in EntriesOf(Without(next, in1))
  {
    assert g !in in1;
    assert v in EntriesOf(Without(next, in1));
    var lo, hi := RangeOfInputs(next, in0, in1);
    OverlappingMembers(next, Some(lo), Some(hi), g);
    EntryInRange(g, v);
    if t in EntriesOf(in0) {
      var f :| f in in0 && t in f.entries;
      EntryInRange(f, t);
    }
  }

  /** When `inputs_[1]` also leaves only newer entries behind, nothing is exposed. */
  lemma ClosedInputsExposeNothing(above: set<Entry>, levels: Levels, level: nat, in0: seq<File>, in1: seq<File>,
                                  snapshot: SequenceNumber, user: UserKey)
    requires Shape(levels) && ChosenInputs(levels, level, in0, in1)
    requires NewerThan(above, EntriesIn(levels)) && UniqueSequences(above + EntriesIn(levels))
    requires LeavesOnlyNewer(levels[level + 1], in1)
    ensures !Exposes(above + EntriesIn(levels), EntriesOf(in0) + EntriesOf(in1), levels, level, snapshot, user)
  {
    var db := above + EntriesIn(levels);
    var inputs := EntriesOf(in0) + EntriesOf(in1);
    forall t, v |
      t in inputs && t.key.user == user && Obsolete(levels, level, snapshot, t) && IsNewest(db, user, snapshot, t)
      && IsNewest(db - inputs, user, snapshot, v)
      ensures false
    {
      assert v != t;
      ExposureIsInNextLevel(above, levels, level, in0, in1, t, v, snapshot);
    }
  }

  /** `inputs_[1]` leaves only newer entries behind as soon as no file of the
      next level is a boundary file of it. */
  lemma NoBoundaryFileSuffices(next: seq<File>, in0: seq<File>, in1: seq<File>, largest: InternalKey)
    requires Disjoint(next) && AllValid(next) && UniqueSequences(EntriesOf(next))
    requires HasNextLevelInputs(next, in0, in1) && IsLargest(in1, largest)
    requires forall f :: f in next ==> !IsBoundary(f, largest)
    ensures LeavesOnlyNewer(next, in1)
  {
    var lo, hi := RangeOfInputs(next, in0, in1);
    OverlappingIsContiguous(next, Some(lo), Some(hi));
    BoundaryClosedLeavesOnlyNewer(next, in1, largest);
  }
}
