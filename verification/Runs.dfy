/** The database as a state machine: what every run keeps, and when reads at live
    snapshots agree with the full write history. */
module Runs {
  import opened InternalKeys
  import opened Versions
  import opened Inputs
  import opened Compactions
  import opened Installs
  import opened Shapes

  /** `history` is an auxiliary variable: everything ever written. */
  datatype State = State(
    mem: seq<Entry>,
    imm: Option<seq<Entry>>,
    levels: Levels,
    lastSequence: SequenceNumber,
    snapshots: seq<SequenceNumber>,
    nextFile: nat,
    history: set<Entry>)

  datatype Operation = Operation(user: UserKey, kind: ValueType, value: Bytes)

  datatype Action =
    | Write(batch: seq<Operation>)
    | NewSnapshot
    | ReleaseSnapshot(index: nat)
    | SwitchMemTable
    | CompactMemTable(level: nat)
    | Compact(level: nat, in0: seq<File>, in1: seq<File>, outputs: seq<File>)
    | TrivialMove(level: nat, file: File)

  function ImmEntries(s: State): set<Entry> {
    if s.imm.Some? then Elements(s.imm.value) else {}
  }

  function MemEntries(s: State): set<Entry> {
    Elements(s.mem) + ImmEntries(s)
  }

  function Db(s: State): set<Entry> {
    MemEntries(s) + EntriesIn(s.levels)
  }

  /** The oldest live snapshot, or the last sequence number when there is none. */
  function SmallestSnapshot(s: State): SequenceNumber {
    if s.snapshots == [] then s.lastSequence else s.snapshots[0]
  }

  /** The entries of a batch get consecutive sequence numbers after `last`. */
  function BatchEntries(batch: seq<Operation>, last: SequenceNumber): seq<Entry>
    requires last + |batch| <= MAX_SEQUENCE
  {
    seq(|batch|, i requires 0 <= i < |batch| =>
      Entry(InternalKey(batch[i].user, last + 1 + i, batch[i].kind), batch[i].value))
  }

  const NO_FILES: Levels := [[], [], [], [], [], [], []]

  ghost predicate Init(s: State) {
    s == State([], None, NO_FILES, 0, [], 2, {})
  }

  ghost predicate WriteStep(s: State, batch: seq<Operation>, s': State) {
    && s.lastSequence + |batch| < MAX_SEQUENCE
    && var added := Elements(BatchEntries(batch, s.lastSequence));
       && Sorted(s'.mem) && Elements(s'.mem) == Elements(s.mem) + added
       && s' == s.(mem := s'.mem, lastSequence := s.lastSequence + |batch|, history := s.history + added)
  }

  ghost predicate FlushStep(s: State, level: nat, s': State) {
    && s.imm.Some?
    && |s.levels| == NUM_LEVELS && level < NUM_LEVELS
    && if s.imm.value == [] then s' == s.(imm := None, nextFile := s.nextFile + 1)
       else
         var es := s.imm.value;
         var file := File(s.nextFile, es[0].key, es[|es| - 1].key, es);
         && MayFlushTo(s.levels, level, file)
         && Flushed(s.levels, level, file, s'.levels)
         && s' == s.(imm := None, levels := s'.levels, nextFile := s.nextFile + 1)
  }

  /** A compaction whose inputs were chosen by the code. */
  ghost predicate CompactStep(s: State, level: nat, in0: seq<File>, in1: seq<File>, outputs: seq<File>, s': State) {
    var inputs := EntriesOf(in0) + EntriesOf(in1);
    && ChosenInputs(s.levels, level, in0, in1)
    && AllValid(outputs) && Disjoint(outputs)
    && EntriesOf(outputs) == Survivors(inputs, s.levels, level, SmallestSnapshot(s))
    && Numbered(outputs, s.nextFile, s'.nextFile)
    && s.nextFile <= s'.nextFile
    && Installed(s.levels, level, in0, in1, outputs, s'.levels)
    && s' == s.(levels := s'.levels, nextFile := s'.nextFile)
  }

  ghost predicate TrivialMoveStep(s: State, level: nat, file: File, s': State) {
    && ChosenInputs(s.levels, level, [file], [])
    && Installed(s.levels, level, [file], [], [file], s'.levels)
    && s' == s.(levels := s'.levels)
  }

  ghost predicate Step(s: State, a: Action, s': State) {
    match a
    case Write(batch) => WriteStep(s, batch, s')
    case NewSnapshot => s' == s.(snapshots := s.snapshots + [s.lastSequence])
    case ReleaseSnapshot(i) => i < |s.snapshots| && s' == s.(snapshots := s.snapshots[..i] + s.snapshots[i + 1..])
    case SwitchMemTable => s.imm.None? && s' == s.(imm := Some(s.mem), mem := [])
    case CompactMemTable(level) => FlushStep(s, level, s')
    case Compact(level, in0, in1, outputs) => CompactStep(s, level, in0, in1, outputs, s')
    case TrivialMove(level, file) => TrivialMoveStep(s, level, file, s')
  }

  // ---------------------------------------------------------------------
  // The invariant
  // ---------------------------------------------------------------------

  ghost predicate NewestInMemory(s: State) {
    && Sorted(s.mem)
    && (s.imm.Some? ==> Sorted(s.imm.value))
    && NewerThan(Elements(s.mem), ImmEntries(s))
    && NewerThan(MemEntries(s), EntriesIn(s.levels))
  }

  ghost predicate HistoryBounds(s: State) {
    && Db(s) <= s.history
    && UniqueSequences(s.history)
    && s.lastSequence < MAX_SEQUENCE
    && (forall e :: e in s.history ==> e.key.sequence <= s.lastSequence)
    && (forall i :: 0 <= i < |s.snapshots| ==> s.snapshots[i] <= s.lastSequence)
    && (forall i, j :: 0 <= i < j < |s.snapshots| ==> s.snapshots[i] <= s.snapshots[j])
  }

  ghost predicate NumbersUsed(s: State) {
    forall l, f :: 0 <= l < |s.levels| && f in s.levels[l] ==> f.number < s.nextFile
  }

  ghost predicate Inv(s: State) {
    && Shape(s.levels)
    && NewestInMemory(s)
    && HistoryBounds(s)
    && NumbersUsed(s)
  }

  /** `db` reads like the history `h` from `snapshot` on. */
  ghost predicate ReadsAlike(h: set<Entry>, db: set<Entry>, user: UserKey, snapshot: SequenceNumber) {
    forall q: SequenceNumber :: q >= snapshot ==> SameRead(h, db, user, q)
  }

  /** Reads of `user` at or after the smallest snapshot agree with the history. */
  ghost predicate AgreesOn(s: State, user: UserKey) {
    ReadsAlike(s.history, Db(s), user, SmallestSnapshot(s))
  }

  /** The step is a compaction that drops the tombstone of `user` above an older value. */
  ghost predicate ExposesOn(s: State, a: Action, user: UserKey) {
    a.Compact?
    && Exposes(Db(s), EntriesOf(a.in0) + EntriesOf(a.in1), s.levels, a.level, SmallestSnapshot(s), user)
  }

  lemma InitKeepsInv(s: State)
    requires Init(s)
    ensures Inv(s)
  {
    forall l | 0 <= l < NUM_LEVELS ensures s.levels[l] == [] && EntriesOf(s.levels[l]) == {} {
    }
    assert Db(s) == {};
  }

  /** Adding newer entries to both sides keeps reads equal. */
  lemma AddNewerKeepsRead(h: set<Entry>, d: set<Entry>, added: set<Entry>, user: UserKey, q: SequenceNumber)
    requires d <= h && UniqueSequences(h + added)
    requires forall x, y :: x in added && y in h ==> x.key.sequence > y.key.sequence
    requires SameRead(h, d, user, q)
    ensures SameRead(h + added, d + added, user, q)
  {
    var a := NewestExists(added, user, q);
    var rh := NewestExists(h, user, q);
    var rd := NewestExists(d, user, q);
    ReadIsResult(h, user, q, rh);
    ReadIsResult(d, user, q, rd);
    assert Reads(h, user, q, ResultOf(rh)) <==> Reads(d, user, q, ResultOf(rh));
    var nh := if a.Some? then a else rh;
    var nd := if a.Some? then a else rd;
    assert FindsNewest(h + added, user, q, nh);
    assert FindsNewest(d + added, user, q, nd);
    ReadIsResult(h + added, user, q, nh);
    ReadIsResult(d + added, user, q, nd);
  }

  lemma BatchIsFresh(batch: seq<Operation>, last: SequenceNumber)
    requires last + |batch| <= MAX_SEQUENCE
    ensures forall e :: e in Elements(BatchEntries(batch, last)) ==> last < e.key.sequence <= last + |batch|
    ensures UniqueSequences(Elements(BatchEntries(batch, last)))
  {
  }

  lemma WriteKeepsInv(s: State, batch: seq<Operation>, s': State)
    requires Inv(s) && WriteStep(s, batch, s')
    ensures Inv(s')
    ensures Db(s') == Db(s) + Elements(BatchEntries(batch, s.lastSequence))
  {
    BatchIsFresh(batch, s.lastSequence);
    assert UniqueSequences(s'.history);
  }

  lemma WriteKeepsReads(s: State, batch: seq<Operation>, s': State, user: UserKey)
    requires Inv(s) && WriteStep(s, batch, s') && AgreesOn(s, user)
    ensures AgreesOn(s', user)
  {
    BatchIsFresh(batch, s.lastSequence);
    WriteKeepsInv(s, batch, s');
    forall q: SequenceNumber | q >= SmallestSnapshot(s') ensures SameRead(s'.history, Db(s'), user, q) {
      AddNewerKeepsRead(s.history, Db(s), Elements(BatchEntries(batch, s.lastSequence)), user, q);
    }
  }

  /** The steps that leave the entries as they are, and no snapshot older. */
  lemma SameEntriesKeepReads(s: State, s': State, user: UserKey)
    requires Db(s') == Db(s) && s'.history == s.history && SmallestSnapshot(s') >= SmallestSnapshot(s)
    requires AgreesOn(s, user)
    ensures AgreesOn(s', user)
  {
  }

  lemma SnapshotsKeepInv(s: State, a: Action, s': State)
    requires Inv(s) && Step(s, a, s') && (a.NewSnapshot? || a.ReleaseSnapshot?)
    ensures Inv(s') && Db(s') == Db(s) && SmallestSnapshot(s') >= SmallestSnapshot(s)
  {
  }

  lemma SwitchKeepsInv(s: State, s': State)
    requires Inv(s) && Step(s, SwitchMemTable, s')
    ensures Inv(s') && Db(s') == Db(s)
  {
    assert MemEntries(s') == MemEntries(s);
  }

  lemma FlushKeepsInv(s: State, level: nat, s': State)
    requires Inv(s) && FlushStep(s, level, s')
    ensures Inv(s') && Db(s') == Db(s)
  {
    if s.imm.value == [] {
      FlushedSets(Elements(s.mem), ImmEntries(s), EntriesIn(s.levels), EntriesIn(s'.levels));
    } else {
      FlushedShape(s, level, s');
      FlushedSets(Elements(s.mem), ImmEntries(s), EntriesIn(s.levels), EntriesIn(s'.levels));
    }
    assert MemEntries(s') == Elements(s.mem) + {};
  }

  lemma FlushedSets(mem: set<Entry>, imm: set<Entry>, stored: set<Entry>, stored': set<Entry>)
    requires NewerThan(mem, imm) && NewerThan(mem + imm, stored) && stored' == stored + imm
    ensures NewerThan(mem + {}, stored')
    ensures (mem + {}) + stored' == (mem + imm) + stored
  {
  }

  lemma FlushedShape(s: State, level: nat, s': State)
    requires Shape(s.levels) && NewestInMemory(s) && NumbersUsed(s)
    requires FlushStep(s, level, s') && s.imm.value != []
    ensures Shape(s'.levels) && NumbersUsed(s')
    ensures EntriesIn(s'.levels) == EntriesIn(s.levels) + ImmEntries(s)
  {
    var es := s.imm.value;
    var file := File(s.nextFile, es[0].key, es[|es| - 1].key, es);
    assert file.Valid();
    NewerThanUnion(Elements(s.mem), ImmEntries(s), EntriesIn(s.levels));
    FlushKeepsShape(s.levels, level, file, s'.levels);
    FlushReplacesEntries(s.levels, level, file, s'.levels);
    FlushKeepsNumbers(s, level, file, s');
  }

  lemma FlushKeepsNumbers(s: State, level: nat, file: File, s': State)
    requires |s.levels| == NUM_LEVELS && level < NUM_LEVELS && NumbersUsed(s)
    requires Flushed(s.levels, level, file, s'.levels) && file.number == s.nextFile && s'.nextFile == s.nextFile + 1
    ensures NumbersUsed(s')
  {
  }

  lemma CompactKeepsInv(s: State, level: nat, in0: seq<File>, in1: seq<File>, outputs: seq<File>, s': State)
    requires Inv(s) && CompactStep(s, level, in0, in1, outputs, s')
    ensures Inv(s')
    ensures var inputs := EntriesOf(in0) + EntriesOf(in1);
      inputs <= Db(s) && Db(s') == AfterDrop(Db(s), inputs, s.levels, level, SmallestSnapshot(s))
  {
    var inputs := EntriesOf(in0) + EntriesOf(in1);
    InputsAreInLevels(s.levels, level, in0, in1);
    LevelsPart(s.levels, level);
    LevelsPart(s.levels, level + 1);
    InstallKeepsShape(s.levels, level, in0, in1, outputs, s'.levels);
    InstallReplacesEntries(s.levels, level, in0, in1, outputs, s'.levels);
    NewerSharesNothing(MemEntries(s), EntriesIn(s.levels));
    ReplacedDb(MemEntries(s), EntriesIn(s.levels), inputs, EntriesOf(outputs));
    InstallKeepsNumbers(s, level, in0, in1, outputs, s');
  }

  lemma DropKeepsReads(h: set<Entry>, db: set<Entry>, inputs: set<Entry>, levels: Levels, level: nat,
                       snapshot: SequenceNumber, user: UserKey)
    requires UniqueSequences(db) && inputs <= db && ReadsAlike(h, db, user, snapshot)
    ensures ReadsAlike(h, AfterDrop(db, inputs, levels, level, snapshot), user, snapshot)
       <==> !Exposes(db, inputs, levels, level, snapshot, user)
  {
    var after := AfterDrop(db, inputs, levels, level, snapshot);
    if Exposes(db, inputs, levels, level, snapshot, user) {
      ExposureChangesRead(db, inputs, levels, level, snapshot, user);
      assert SameRead(h, db, user, snapshot);
      assert !SameRead(h, after, user, snapshot);
    } else {
      forall q: SequenceNumber | q >= snapshot ensures SameRead(h, after, user, q) {
        UnexposedReadIsKept(db, inputs, levels, level, snapshot, user, q);
        assert SameRead(h, db, user, q);
      }
    }
  }

  /** A compaction keeps the reads of a key exactly when it does not expose it. */
  lemma CompactKeepsReads(s: State, level: nat, in0: seq<File>, in1: seq<File>, outputs: seq<File>, s': State,
                          user: UserKey)
    requires Inv(s) && CompactStep(s, level, in0, in1, outputs, s') && AgreesOn(s, user)
    ensures AgreesOn(s', user) <==> !ExposesOn(s, Compact(level, in0, in1, outputs), user)
  {
    CompactKeepsInv(s, level, in0, in1, outputs, s');
    DropKeepsReads(s.history, Db(s), EntriesOf(in0) + EntriesOf(in1), s.levels, level, SmallestSnapshot(s), user);
  }

  lemma ReplacedDb(memory: set<Entry>, stored: set<Entry>, inputs: set<Entry>, outputs: set<Entry>)
    requires memory !! stored && inputs <= stored
    ensures memory + ((stored - inputs) + outputs) == ((memory + stored) - inputs) + outputs
  {
  }

  lemma InstallKeepsNumbers(s: State, level: nat, in0: seq<File>, in1: seq<File>, outputs: seq<File>, s': State)
    requires |s.levels| == NUM_LEVELS && level + 1 < NUM_LEVELS && NumbersUsed(s)
    requires Installed(s.levels, level, in0, in1, outputs, s'.levels)
    requires s.nextFile <= s'.nextFile && forall f :: f in outputs ==> f.number < s'.nextFile
    ensures NumbersUsed(s')
  {
  }

  lemma TrivialMoveKeepsInv(s: State, level: nat, file: File, s': State)
    requires Inv(s) && TrivialMoveStep(s, level, file, s')
    ensures Inv(s') && Db(s') == Db(s)
  {
    MoveKeepsShape(s.levels, level, file, s'.levels);
    InstallKeepsNumbers(s, level, [file], [], [file], s') by {
      assert file in [file];
    }
  }

  lemma MoveKeepsShape(levels: Levels, level: nat, file: File, after: Levels)
    requires Shape(levels) && ChosenInputs(levels, level, [file], [])
    requires Installed(levels, level, [file], [], [file], after)
    ensures Shape(after) && EntriesIn(after) == EntriesIn(levels)
  {
    InputsAreInLevels(levels, level, [file], []);
    assert file in [file];
    InstallKeepsShape(levels, level, [file], [], [file], after) by {
      assert AllValid(levels[level]);
      ValidFilesAreOrdered([file]);
    }
    InstallReplacesEntries(levels, level, [file], [], [file], after);
    LevelsPart(levels, level);
    assert EntriesOf([]) == {};
  }

  /** Every step keeps the invariant. */
  lemma StepKeepsInv(s: State, a: Action, s': State)
    requires Inv(s) && Step(s, a, s')
    ensures Inv(s')
  {
    match a
    case Write(batch) => WriteKeepsInv(s, batch, s');
    case NewSnapshot => SnapshotsKeepInv(s, a, s');
    case ReleaseSnapshot(i) => SnapshotsKeepInv(s, a, s');
    case SwitchMemTable => SwitchKeepsInv(s, s');
    case CompactMemTable(level) => FlushKeepsInv(s, level, s');
    case Compact(level, in0, in1, outputs) => CompactKeepsInv(s, level, in0, in1, outputs, s');
    case TrivialMove(level, file) => TrivialMoveKeepsInv(s, level, file, s');
  }

  /** Every step keeps the reads of a key, unless it is a compaction that exposes it. */
  lemma StepKeepsReads(s: State, a: Action, s': State, user: UserKey)
    requires Inv(s) && Step(s, a, s') && AgreesOn(s, user)
    ensures AgreesOn(s', user) <==> !ExposesOn(s, a, user)
  {
    match a
    case Write(batch) => WriteKeepsReads(s, batch, s', user);
    case NewSnapshot => SnapshotsKeepInv(s, a, s'); SameEntriesKeepReads(s, s', user);
    case ReleaseSnapshot(i) => SnapshotsKeepInv(s, a, s'); SameEntriesKeepReads(s, s', user);
    case SwitchMemTable => SwitchKeepsInv(s, s'); SameEntriesKeepReads(s, s', user);
    case CompactMemTable(level) => FlushKeepsInv(s, level, s'); SameEntriesKeepReads(s, s', user);
    case Compact(level, in0, in1, outputs) => CompactKeepsReads(s, level, in0, in1, outputs, s', user);
    case TrivialMove(level, file) => TrivialMoveKeepsInv(s, level, file, s'); SameEntriesKeepReads(s, s', user);
  }

  ghost predicate StepAt(states: seq<State>, actions: seq<Action>, i: nat)
    requires i < |actions| && i + 1 < |states|
  {
    Step(states[i], actions[i], states[i + 1])
  }

  /** A run: an initial state and the states after each action. */
  ghost predicate IsRun(states: seq<State>, actions: seq<Action>) {
    && |states| == |actions| + 1
    && Init(states[0])
    && forall i :: 0 <= i < |actions| ==> StepAt(states, actions, i)
  }

  lemma {:induction false} RunKeepsInv(states: seq<State>, actions: seq<Action>, i: nat)
    requires IsRun(states, actions) && i < |states|
    ensures Inv(states[i])
  {
    if i == 0 {
      InitKeepsInv(states[0]);
    } else {
      RunKeepsInv(states, actions, i - 1);
      assert StepAt(states, actions, i - 1);
      StepKeepsInv(states[i - 1], actions[i - 1], states[i]);
    }
  }

  ghost predicate ExposedAt(states: seq<State>, actions: seq<Action>, i: nat, user: UserKey)
    requires i < |actions| && i < |states|
  {
    ExposesOn(states[i], actions[i], user)
  }

  /** No compaction of the run so far exposed `user`. */
  ghost predicate NeverExposed(states: seq<State>, actions: seq<Action>, n: nat, user: UserKey)
    requires n <= |actions| && n <= |states|
  {
    forall i :: 0 <= i < n ==> !ExposedAt(states, actions, i, user)
  }

  lemma {:induction false} RunKeepsReads(states: seq<State>, actions: seq<Action>, i: nat, user: UserKey)
    requires IsRun(states, actions) && i < |states| && NeverExposed(states, actions, i, user)
    ensures AgreesOn(states[i], user)
  {
    if i > 0 {
      RunKeepsInv(states, actions, i - 1);
      RunKeepsReads(states, actions, i - 1, user);
      assert StepAt(states, actions, i - 1) && !ExposedAt(states, actions, i - 1, user);
      StepKeepsReads(states[i - 1], actions[i - 1], states[i], user);
    }
  }

  /** In every run, as long as no compaction exposed a key, every live snapshot
      sees exactly what the write history says about it. */
  lemma LiveSnapshotsSeeHistory(states: seq<State>, actions: seq<Action>, i: nat, user: UserKey, q: SequenceNumber)
    requires IsRun(states, actions) && i < |states|
    requires q in states[i].snapshots || q == states[i].lastSequence
    requires NeverExposed(states, actions, i, user)
    ensures SameRead(states[i].history, Db(states[i]), user, q)
  {
    RunKeepsInv(states, actions, i);
    RunKeepsReads(states, actions, i, user);
    LiveIsRecent(states[i], q);
  }

  lemma LiveIsRecent(s: State, q: SequenceNumber)
    requires HistoryBounds(s)
    requires q in s.snapshots || q == s.lastSequence
    ensures q >= SmallestSnapshot(s)
  {
    if q in s.snapshots {
      var k :| 0 <= k < |s.snapshots| && s.snapshots[k] == q;
      assert k == 0 || s.snapshots[0] <= s.snapshots[k];
    }
  }
}
