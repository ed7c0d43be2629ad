/** Reopening a database: the edits that any run logs, replayed into one builder,
    give back the version the run ended with. */
module Recoveries {
  import opened InternalKeys
  import opened Versions
  import opened Inputs
  import opened Compactions
  import opened Installs
  import opened Shapes
  import opened Runs
  import opened Manifests
  import opened Databases

  // ---------------------------------------------------------------------
  // What is logged
  // ---------------------------------------------------------------------

  /** The edit that a step writes to the manifest. */
  function EditOf(s: State, a: Action): Option<Edit> {
    match a
    case Compact(level, in0, in1, outputs) => Some(InstallEdit(level, in0, in1, outputs))
    case TrivialMove(level, file) => Some(InstallEdit(level, [file], [], [file]))
    case CompactMemTable(level) =>
      if s.imm.Some? && s.imm.value != [] then
        var es := s.imm.value;
        Some(Edit({}, [(level, File(s.nextFile, es[0].key, es[|es| - 1].key, es))]))
      else Some(Edit({}, []))
    case _ => None
  }

  function Log(edits: seq<Edit>, e: Option<Edit>): seq<Edit> {
    if e.Some? then edits + [e.value] else edits
  }

  /** The manifest after `n` steps of a run. */
  function ManifestOf(states: seq<State>, actions: seq<Action>, n: nat): seq<Edit>
    requires n <= |actions| && n <= |states|
  {
    if n == 0 then [] else Log(ManifestOf(states, actions, n - 1), EditOf(states[n - 1], actions[n - 1]))
  }

  // ---------------------------------------------------------------------
  // What the log keeps
  // ---------------------------------------------------------------------

  /** Level `l` is what its edits make it; every number it ever got is used up,
      and names no file of a shallower level: files only move down. */
  ghost predicate LoggedAt(levels: Levels, edits: seq<Edit>, next: nat, l: nat)
    requires |levels| == NUM_LEVELS && l < NUM_LEVELS
  {
    && Replayable({}, edits, l)
    && OneByOne({}, edits, l) == FilesOf(levels[l])
    && (forall f :: f in AllAdded(edits, l) ==> f.number < next)
    && (forall f, m, g :: f in AllAdded(edits, l) && 0 <= m < l && g in levels[m] ==> g.number != f.number)
  }

  ghost predicate Logged(levels: Levels, edits: seq<Edit>, next: nat) {
    && |levels| == NUM_LEVELS
    && (forall k :: 0 <= k < |edits| ==> LevelsExist(edits[k]))
    && (forall l :: 0 <= l < NUM_LEVELS ==> LoggedAt(levels, edits, next, l))
  }

  /** A file is added under a new number, or comes from a shallower level. */
  ghost predicate AddsNewFiles(levels: Levels, next: nat, e: Edit)
    requires |levels| == NUM_LEVELS
  {
    forall l, f :: 0 <= l < NUM_LEVELS && f in AddedAt(e, l) ==>
      f.number >= next
      || exists m :: 0 <= m < l && f in levels[m] && f.number in DeletedAt(e, m) && AddedAt(e, m) == {}
  }

  /** `e` takes `levels` to `levels'`, and adds files at no more than one level. */
  ghost predicate Takes(levels: Levels, next: nat, e: Edit, levels': Levels, next': nat) {
    && |levels| == |levels'| == NUM_LEVELS && next <= next' && LevelsExist(e)
    && AddsNewFiles(levels, next, e)
    && (forall l, m :: 0 <= l < m < NUM_LEVELS ==> AddedAt(e, l) == {} || AddedAt(e, m) == {})
    && (forall l :: 0 <= l < NUM_LEVELS ==>
          Identified(AddedAt(e, l))
          && FilesOf(levels'[l]) == SavedFiles(FilesOf(levels[l]), DeletedAfter({}, e, l), AddedAt(e, l)))
    && (forall l, f :: 0 <= l < NUM_LEVELS && f in AddedAt(e, l) ==> f.number < next')
  }

  ghost predicate NumbersBelow(levels: Levels, next: nat) {
    forall l, f :: 0 <= l < |levels| && f in levels[l] ==> f.number < next
  }

  /** The numbers an edit adds are new to the level. */
  lemma NumbersAreNewToLevel(levels: Levels, edits: seq<Edit>, next: nat, e: Edit, l: nat)
    requires |levels| == NUM_LEVELS && l < NUM_LEVELS && LoggedAt(levels, edits, next, l) &&
      AddsNewFiles(levels, next, e)
    ensures forall f :: f in AddedAt(e, l) ==> f.number !in Numbers(AllAdded(edits, l))
  {
  }

  lemma ReplayableGrows(edits: seq<Edit>, e: Edit, l: nat)
    requires Replayable({}, edits, l) && Identified(AddedAt(e, l))
    requires forall f :: f in AddedAt(e, l) ==> f.number !in Numbers(AllAdded(edits, l))
    ensures Replayable({}, edits + [e], l)
  {
    var all := edits + [e];
    forall k, f | 0 <= k < |all| && f in AddedAt(all[k], l) ensures f.number !in Numbers({} + AllAdded(all[..k], l)) {
      if k < |edits| {
        assert all[..k] == edits[..k];
      } else {
        assert all[..k] == edits && {} + AllAdded(edits, l) == AllAdded(edits, l);
      }
    }
  }

  lemma OneMoreLogged(levels: Levels, edits: seq<Edit>, next: nat, e: Edit, levels': Levels, next': nat, l: nat)
    requires Logged(levels, edits, next) && Listed(levels) && NumbersBelow(levels, next) && l < NUM_LEVELS
    requires Takes(levels, next, e, levels', next')
    ensures LoggedAt(levels', edits + [e], next', l)
  {
    assert LoggedAt(levels, edits, next, l);
    NumbersAreNewToLevel(levels, edits, next, e, l);
    ReplayableGrows(edits, e, l);
    assert (edits + [e])[..|edits|] == edits;
    forall f, m, g | f in AllAdded(edits + [e], l) && 0 <= m < l && g in levels'[m] ensures g.number != f.number {
      assert g in FilesOf(levels'[m]);
      assert g in levels[m] || g in AddedAt(e, m);
    }
  }

  lemma LoggedGrows(levels: Levels, edits: seq<Edit>, next: nat, e: Edit, levels': Levels, next': nat)
    requires Logged(levels, edits, next) && Listed(levels) && NumbersBelow(levels, next)
    requires Takes(levels, next, e, levels', next')
    ensures Logged(levels', edits + [e], next')
  {
    forall l | 0 <= l < NUM_LEVELS ensures LoggedAt(levels', edits + [e], next', l) {
      OneMoreLogged(levels, edits, next, e, levels', next', l);
    }
  }

  // ---------------------------------------------------------------------
  // Every step
  // ---------------------------------------------------------------------

  lemma SavedFilesOf(after: seq<File>, kept: seq<File>, added: seq<File>)
    requires Saved(after, kept, added)
    ensures FilesOf(after) == FilesOf(kept) + FilesOf(added)
  {
  }

  lemma UntouchedFiles(files: set<File>)
    ensures SavedFiles(files, {} - Numbers({}), {}) == files
  {
  }

  /** Outputs are new, or inputs that move down. */
  ghost predicate GoodNumbers(levels: Levels, level: nat, in0: seq<File>, outputs: seq<File>, next: nat, next': nat)
    requires level + 1 < |levels|
  {
    && next <= next' && Identified(FilesOf(outputs))
    && Numbers(FilesOf(levels[level + 1])) !! Numbers(FilesOf(outputs))
    && forall f :: f in outputs ==> f.number < next' && (f.number >= next || (f in in0 && f in levels[level]))
  }

  lemma InstalledFiles(levels: Levels, level: nat, in0: seq<File>, in1: seq<File>, outputs: seq<File>, levels': Levels,
                       l: nat)
    requires Listed(levels) && level + 1 < NUM_LEVELS && l < NUM_LEVELS &&
      Installed(levels, level, in0, in1, outputs, levels')
    requires (forall f :: f in in0 ==> f in levels[level]) && (forall f :: f in in1 ==> f in levels[level + 1])
    requires Numbers(FilesOf(levels[level + 1])) !! Numbers(FilesOf(outputs))
    ensures var e := InstallEdit(level, in0, in1, outputs);
      FilesOf(levels'[l]) == SavedFiles(FilesOf(levels[l]), DeletedAfter({}, e, l), AddedAt(e, l))
  {
    InstallEditAt(level, in0, in1, outputs);
    LevelFacts(levels, l);
    if l == level {
      DeletedIsWithout(levels[level], in0);
      SavedFilesOf(levels'[level], Without(levels[level], in0), []);
    } else if l == level + 1 {
      DeletedAndAdded(levels[level + 1], in1, outputs);
      SavedFilesOf(levels'[level + 1], Without(levels[level + 1], in1), outputs);
    } else {
      UntouchedFiles(FilesOf(levels[l]));
    }
  }

  lemma InstallAddsNewFiles(levels: Levels, level: nat, in0: seq<File>, in1: seq<File>, outputs: seq<File>, next: nat,
                            next': nat)
    requires |levels| == NUM_LEVELS && level + 1 < NUM_LEVELS && GoodNumbers(levels, level, in0, outputs, next, next')
    ensures AddsNewFiles(levels, next, InstallEdit(level, in0, in1, outputs))
  {
    var e := InstallEdit(level, in0, in1, outputs);
    InstallEditAt(level, in0, in1, outputs);
    forall l, f | 0 <= l < NUM_LEVELS && f in AddedAt(e, l) && f.number < next
      ensures exists m :: 0 <= m < l && f in levels[m] && f.number in DeletedAt(e, m) && AddedAt(e, m) == {}
    {
      assert l == level + 1 && f in outputs;
      assert f in FilesOf(in0);
      assert f.number in DeletedAt(e, level) && AddedAt(e, level) == {};
    }
  }

  lemma InstallTakes(levels: Levels, level: nat, in0: seq<File>, in1: seq<File>, outputs: seq<File>, levels': Levels,
                     next: nat, next': nat)
    requires Listed(levels) && level + 1 < NUM_LEVELS && Installed(levels, level, in0, in1, outputs, levels')
    requires (forall f :: f in in0 ==> f in levels[level]) && (forall f :: f in in1 ==> f in levels[level + 1])
    requires GoodNumbers(levels, level, in0, outputs, next, next')
    ensures Takes(levels, next, InstallEdit(level, in0, in1, outputs), levels', next')
  {
    InstallEditAt(level, in0, in1, outputs);
    EditLevelsExist(level, in0, in1, outputs);
    InstallAddsNewFiles(levels, level, in0, in1, outputs, next, next');
    forall l | 0 <= l < NUM_LEVELS
      ensures FilesOf(levels'[l])
        == SavedFiles(FilesOf(levels[l]), DeletedAfter({}, InstallEdit(level, in0, in1, outputs), l),
                                                AddedAt(InstallEdit(level, in0, in1, outputs), l))
    {
      InstalledFiles(levels, level, in0, in1, outputs, levels', l);
    }
  }

  lemma FlushTakes(levels: Levels, level: nat, file: File, levels': Levels, next: nat)
    requires Listed(levels) && NumbersBelow(levels, next) && level < NUM_LEVELS
    requires Flushed(levels, level, file, levels') && file.number == next
    ensures Takes(levels, next, Edit({}, [(level, file)]), levels', next + 1)
  {
    var e := Edit({}, [(level, file)]);
    OneFileEdit(level, file);
    assert Numbers({file}) == {file.number};
    forall l | 0 <= l < NUM_LEVELS
      ensures FilesOf(levels'[l]) == SavedFiles(FilesOf(levels[l]), DeletedAfter({}, e, l), AddedAt(e, l))
    {
      if l == level {
        SavedFilesOf(levels'[l], levels[l], [file]);
        assert FilesOf([file]) == {file};
      } else {
        UntouchedFiles(FilesOf(levels[l]));
      }
    }
  }

  lemma NothingTakes(levels: Levels, next: nat)
    requires |levels| == NUM_LEVELS
    ensures Takes(levels, next, Edit({}, []), levels, next + 1)
  {
    var e := Edit({}, []);
    forall l | 0 <= l < NUM_LEVELS ensures AddedAt(e, l) == {} && DeletedAt(e, l) == {} {
    }
    forall l | 0 <= l < NUM_LEVELS
      ensures FilesOf(levels[l]) == SavedFiles(FilesOf(levels[l]), DeletedAfter({}, e, l), AddedAt(e, l))
    {
      UntouchedFiles(FilesOf(levels[l]));
    }
  }

  lemma OutputNumbersAreGood(s: State, level: nat, in0: seq<File>, outputs: seq<File>, next: nat)
    requires |s.levels| == NUM_LEVELS && level + 1 < NUM_LEVELS && NumbersUsed(s)
    requires s.nextFile <= next && Numbered(outputs, s.nextFile, next)
    ensures GoodNumbers(s.levels, level, in0, outputs, s.nextFile, next) && NumbersAreNew(s.levels, level, in0, outputs)
  {
    OutputsAreNew(s, level, in0, outputs, next);
  }

  lemma InstalledIsSorted(levels: Levels, level: nat, in0: seq<File>, in1: seq<File>, outputs: seq<File>,
                          levels': Levels)
    requires Listed(levels) && level + 1 < NUM_LEVELS && Installed(levels, level, in0, in1, outputs, levels')
    ensures forall l :: 0 <= l < NUM_LEVELS ==> SortedBySmallest(levels'[l])
  {
  }

  lemma CompactTakes(s: State, level: nat, in0: seq<File>, in1: seq<File>, outputs: seq<File>, s': State)
    requires Inv(s) && Listed(s.levels) && CompactStep(s, level, in0, in1, outputs, s')
    ensures Takes(s.levels, s.nextFile, InstallEdit(level, in0, in1, outputs), s'.levels, s'.nextFile)
    ensures Listed(s'.levels)
  {
    InputsAreInLevels(s.levels, level, in0, in1);
    OutputNumbersAreGood(s, level, in0, outputs, s'.nextFile);
    InstallTakes(s.levels, level, in0, in1, outputs, s'.levels, s.nextFile, s'.nextFile);
    InstalledIsSorted(s.levels, level, in0, in1, outputs, s'.levels);
    InstalledIsListed(s.levels, level, in0, in1, outputs, s'.levels);
  }

  lemma MovedNumberIsGood(s: State, level: nat, file: File)
    requires |s.levels| == NUM_LEVELS && level + 1 < NUM_LEVELS && file in s.levels[level]
    requires Listed(s.levels) && NumbersUsed(s)
    ensures GoodNumbers(s.levels, level, [file], [file], s.nextFile, s.nextFile)
    ensures NumbersAreNew(s.levels, level, [file], [file]) && Identified(FilesOf([file]))
  {
    MovedFileIsGood(s.levels, level, file, [file]);
  }

  lemma MoveTakes(s: State, level: nat, file: File, s': State)
    requires Inv(s) && Listed(s.levels) && TrivialMoveStep(s, level, file, s')
    ensures Takes(s.levels, s.nextFile, InstallEdit(level, [file], [], [file]), s'.levels, s'.nextFile)
    ensures Listed(s'.levels)
  {
    assert file in [file];
    MovedNumberIsGood(s, level, file);
    InstalledIsSorted(s.levels, level, [file], [], [file], s'.levels);
    InstallTakes(s.levels, level, [file], [], [file], s'.levels, s.nextFile, s'.nextFile);
    InstalledIsListed(s.levels, level, [file], [], [file], s'.levels);
  }

  lemma FlushStepTakes(s: State, level: nat, s': State)
    requires Inv(s) && Listed(s.levels) && FlushStep(s, level, s')
    ensures Takes(s.levels, s.nextFile, EditOf(s, CompactMemTable(level)).value, s'.levels, s'.nextFile)
    ensures Listed(s'.levels)
  {
    if s.imm.value == [] {
      NothingTakes(s.levels, s.nextFile);
    } else {
      var es := s.imm.value;
      var file := File(s.nextFile, es[0].key, es[|es| - 1].key, es);
      NumberIsUnused(s, file.number);
      FlushTakes(s.levels, level, file, s'.levels, s.nextFile);
      FlushedIsListed(s.levels, level, file, s'.levels);
    }
  }

  /** A step changes the levels as its edit says, or not at all. */
  lemma StepTakes(s: State, a: Action, s': State)
    requires Inv(s) && Listed(s.levels) && Step(s, a, s')
    ensures Listed(s'.levels)
    ensures if EditOf(s, a).Some? then Takes(s.levels, s.nextFile, EditOf(s, a).value, s'.levels, s'.nextFile)
            else s'.levels == s.levels && s'.nextFile == s.nextFile
  {
    match a
    case Compact(level, in0, in1, outputs) => CompactTakes(s, level, in0, in1, outputs, s');
    case TrivialMove(level, file) => MoveTakes(s, level, file, s');
    case CompactMemTable(level) => FlushStepTakes(s, level, s');
    case _ =>
  }

  // ---------------------------------------------------------------------
  // Every run
  // ---------------------------------------------------------------------

  lemma NothingIsLogged(next: nat)
    ensures Logged(NO_FILES, [], next)
  {
    forall l | 0 <= l < NUM_LEVELS ensures LoggedAt(NO_FILES, [], next, l) {
      assert NO_FILES[l] == [] && FilesOf(NO_FILES[l]) == {};
    }
  }

  lemma NextIsLogged(s: State, a: Action, s': State, edits: seq<Edit>)
    requires Inv(s) && Listed(s.levels) && Step(s, a, s') && Logged(s.levels, edits, s.nextFile)
    ensures Listed(s'.levels) && Logged(s'.levels, Log(edits, EditOf(s, a)), s'.nextFile)
  {
    StepTakes(s, a, s');
    if EditOf(s, a).Some? {
      LoggedGrows(s.levels, edits, s.nextFile, EditOf(s, a).value, s'.levels, s'.nextFile);
    }
  }

  lemma StartIsLogged(s: State)
    requires Init(s)
    ensures Listed(s.levels) && Logged(s.levels, [], s.nextFile)
  {
    NoFilesAreListed();
    NothingIsLogged(s.nextFile);
  }

  lemma {:induction false} RunIsLogged(states: seq<State>, actions: seq<Action>, n: nat)
    requires IsRun(states, actions) && n < |states|
    ensures Listed(states[n].levels)
    ensures Logged(states[n].levels, ManifestOf(states, actions, n), states[n].nextFile)
  {
    if n == 0 {
      StartIsLogged(states[0]);
    } else {
      RunIsLogged(states, actions, n - 1);
      RunKeepsInv(states, actions, n - 1);
      assert StepAt(states, actions, n - 1);
      NextIsLogged(states[n - 1], actions[n - 1], states[n], ManifestOf(states, actions, n - 1));
    }
  }

  /** Reopening after any run gives the version the run ended with: the same
      files, in the same order, at every level. */
  method Reopen(ghost states: seq<State>, ghost actions: seq<Action>, ghost n: nat, manifest: seq<Edit>)
    returns (v: Levels)
    requires IsRun(states, actions) && n < |states| && manifest == ManifestOf(states, actions, n)
    ensures v == states[n].levels
  {
    RunIsLogged(states, actions, n);
    NoFilesAreListed();
    LoggedCanBeReplayed(states[n].levels, manifest, states[n].nextFile);
    v := Recover(NO_FILES, manifest);
    SameLevels(v, states[n].levels, manifest, states[n].nextFile);
  }

  lemma LoggedCanBeReplayed(levels: Levels, edits: seq<Edit>, next: nat)
    requires Logged(levels, edits, next)
    ensures forall l :: 0 <= l < NUM_LEVELS ==> NO_FILES[l] == [] && FilesOf(NO_FILES[l]) == {}
    ensures forall l :: 0 <= l < NUM_LEVELS ==>
      SortedBySmallest(NO_FILES[l]) && Replayable(FilesOf(NO_FILES[l]), edits, l)
  {
    forall l | 0 <= l < NUM_LEVELS
      ensures NO_FILES[l] == [] && FilesOf(NO_FILES[l]) == {}
      ensures SortedBySmallest(NO_FILES[l]) && Replayable(FilesOf(NO_FILES[l]), edits, l)
    {
      assert LoggedAt(levels, edits, next, l);
    }
  }

  lemma SameLevels(v: Levels, levels: Levels, edits: seq<Edit>, next: nat)
    requires Logged(levels, edits, next) && Listed(levels) && |v| == NUM_LEVELS
    requires forall l :: 0 <= l < NUM_LEVELS ==> SortedBySmallest(v[l]) && FilesOf(v[l]) == OneByOne({}, edits, l)
    ensures v == levels
  {
    forall l | 0 <= l < NUM_LEVELS ensures v[l] == levels[l] {
      assert LoggedAt(levels, edits, next, l);
      assert forall f :: f in v[l] <==> f in FilesOf(v[l]);
      assert forall f :: f in levels[l] <==> f in FilesOf(levels[l]);
      SortedListIsUnique(v[l], levels[l]);
    }
  }
}
