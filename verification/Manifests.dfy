/** Version edits applied to a version: the builder, which folds any number of
    edits and saves once. */
module Manifests {
  import opened InternalKeys
  import opened Versions
  import opened Shapes
  import opened Inductions

  /** Files are deleted by (level, number) and added whole. */
  datatype Edit = Edit(deleted: set<(nat, nat)>, added: seq<(nat, File)>)

  predicate LevelsExist(e: Edit) {
    && (forall d :: d in e.deleted ==> d.0 < NUM_LEVELS)
    && (forall i :: 0 <= i < |e.added| ==> e.added[i].0 < NUM_LEVELS)
  }

  function DeletedAt(e: Edit, level: nat): set<nat> {
    set d | d in e.deleted && d.0 == level :: d.1
  }

  function AddedAt(e: Edit, level: nat): set<File> {
    set i | 0 <= i < |e.added| && e.added[i].0 == level :: e.added[i].1
  }

  function Numbers(files: set<File>): set<nat> {
    set f | f in files :: f.number
  }

  // ---------------------------------------------------------------------
  // What saving means
  // ---------------------------------------------------------------------

  /** The files of a level after edits that leave these numbers deleted and these files added. */
  function SavedFiles(base: set<File>, deleted: set<nat>, added: set<File>): set<File> {
    set f | f in base + added && f.number !in deleted
  }

  /** Within one edit deletions come first, so adding a file takes its number back. */
  function DeletedAfter(deleted: set<nat>, e: Edit, level: nat): set<nat> {
    (deleted + DeletedAt(e, level)) - Numbers(AddedAt(e, level))
  }

  function FilesOf(files: seq<File>): set<File> {
    set f | f in files
  }

  /** The state of one builder after a sequence of edits. */
  function AllDeleted(edits: seq<Edit>, level: nat): set<nat> {
    if edits == [] then {} else DeletedAfter(AllDeleted(edits[..|edits| - 1], level), edits[|edits| - 1], level)
  }

  function AllAdded(edits: seq<Edit>, level: nat): set<File> {
    if edits == [] then {} else AllAdded(edits[..|edits| - 1], level) + AddedAt(edits[|edits| - 1], level)
  }

  /** The files after applying the edits one version at a time. */
  function OneByOne(base: set<File>, edits: seq<Edit>, level: nat): set<File> {
    if edits == [] then base
    else
      var before := OneByOne(base, edits[..|edits| - 1], level);
      var e := edits[|edits| - 1];
      SavedFiles(before, DeletedAfter({}, e, level), AddedAt(e, level))
  }

  /** No file whose number is deleted comes back when the edit adds that number
      again: it is one of the files added, or the number is not added. */
  predicate NoneComesBack(files: set<File>, deleted: set<nat>, more: set<File>) {
    forall g :: g in files && g.number in deleted && g.number in Numbers(more) ==> g in more
  }

  /** One more edit before a single save gives what saving first gives, exactly
      when it brings no deleted file back. */
  lemma OneMoreEdit(base: set<File>, deleted: set<nat>, added: set<File>, e: Edit, level: nat)
    ensures SavedFiles(base, DeletedAfter(deleted, e, level), added + AddedAt(e, level))
         == SavedFiles(SavedFiles(base, deleted, added), DeletedAfter({}, e, level), AddedAt(e, level))
      <==> NoneComesBack(base + added, deleted, AddedAt(e, level))
  {
    var more := AddedAt(e, level);
    var once := SavedFiles(base, DeletedAfter(deleted, e, level), added + more);
    var twice := SavedFiles(SavedFiles(base, deleted, added), DeletedAfter({}, e, level), more);
    forall f | f in more ensures f.number in Numbers(more) {
    }
    if NoneComesBack(base + added, deleted, more) {
      assert once == twice;
    } else {
      var g :| g in base + added && g.number in deleted && g.number in Numbers(more) && g !in more;
      assert g in once && g !in twice;
    }
  }

  /** Edit `k` brings no file back in the builder it is applied to. */
  predicate NoneComesBackAt(base: set<File>, edits: seq<Edit>, level: nat, k: nat)
    requires k < |edits|
  {
    NoneComesBack(base + AllAdded(edits[..k], level), AllDeleted(edits[..k], level), AddedAt(edits[k], level))
  }

  /** Saving once after `k` edits gives what saving after each of them gives. */
  predicate OneSaveIsEnough(base: set<File>, edits: seq<Edit>, level: nat, k: nat)
    requires k <= |edits|
  {
    SavedFiles(base, AllDeleted(edits[..k], level), AllAdded(edits[..k], level)) == OneByOne(base, edits[..k], level)
  }

  lemma EnoughForOneMore(base: set<File>, edits: seq<Edit>, level: nat, k: nat)
    requires k < |edits| && OneSaveIsEnough(base, edits, level, k)
    ensures OneSaveIsEnough(base, edits, level, k + 1) <==> NoneComesBackAt(base, edits, level, k)
  {
    var next := edits[..k + 1];
    assert next[..k] == edits[..k] && next[k] == edits[k];
    OneMoreEdit(base, AllDeleted(edits[..k], level), AllAdded(edits[..k], level), edits[k], level);
  }

  /** At every point of a sequence of edits, one builder saved once gives what
      saving after each edit gives, exactly when no edit brings a deleted file back. */
  lemma OneSaveIff(base: set<File>, edits: seq<Edit>, level: nat)
    ensures (forall k :: 0 <= k <= |edits| ==> OneSaveIsEnough(base, edits, level, k))
      <==> (forall k :: 0 <= k < |edits| ==> NoneComesBackAt(base, edits, level, k))
  {
    var p := (k: nat) => k <= |edits| && OneSaveIsEnough(base, edits, level, k);
    var q := (k: nat) => k < |edits| && NoneComesBackAt(base, edits, level, k);
    assert edits[..0] == [];
    forall k | 0 <= k < |edits| && p(k) ensures p(k + 1) <==> q(k) {
      EnoughForOneMore(base, edits, level, k);
    }
    Throughout(p, q, |edits|);
    Pointwise(base, edits, level, p, q);
  }

  lemma Pointwise(base: set<File>, edits: seq<Edit>, level: nat, p: nat -> bool, q: nat -> bool)
    requires forall k: nat :: k <= |edits| ==> (p(k) <==> OneSaveIsEnough(base, edits, level, k))
    requires forall k: nat :: k < |edits| ==> (q(k) <==> NoneComesBackAt(base, edits, level, k))
    ensures (forall k :: 0 <= k <= |edits| ==> p(k))
      <==> (forall k :: 0 <= k <= |edits| ==> OneSaveIsEnough(base, edits, level, k))
    ensures (forall k :: 0 <= k < |edits| ==> q(k))
      <==> (forall k :: 0 <= k < |edits| ==> NoneComesBackAt(base, edits, level, k))
  {
  }

  /** No edit adds a file number that the level has or ever had. */
  predicate AddedOnce(base: set<File>, edits: seq<Edit>, level: nat) {
    forall k, f :: 0 <= k < |edits| && f in AddedAt(edits[k], level) ==>
      f.number !in Numbers(base + AllAdded(edits[..k], level))
  }

  /** With new numbers only, as the code hands them out, one save is enough. */
  lemma OneSaveSuffices(base: set<File>, edits: seq<Edit>, level: nat)
    requires AddedOnce(base, edits, level)
    ensures SavedFiles(base, AllDeleted(edits, level), AllAdded(edits, level)) == OneByOne(base, edits, level)
  {
    forall k | 0 <= k < |edits| ensures NoneComesBackAt(base, edits, level, k) {
      var files := base + AllAdded(edits[..k], level);
      assert forall g :: g in files ==> g.number in Numbers(files);
    }
    OneSaveIff(base, edits, level);
    assert edits[..|edits|] == edits;
    assert OneSaveIsEnough(base, edits, level, |edits|);
  }

  const FIVE_KEY: InternalKey := InternalKey(1, 1, TypeValue)
  const OTHER_KEY: InternalKey := InternalKey(2, 2, TypeValue)
  const FIVE: File := File(5, FIVE_KEY, FIVE_KEY, [Entry(FIVE_KEY, [])])
  const OTHER_FIVE: File := File(5, OTHER_KEY, OTHER_KEY, [Entry(OTHER_KEY, [])])

  /** An input that fails the condition: a number deleted and then added again
      with another file brings the deleted file back when saving only once. */
  lemma ReaddedNumberComesBack()
    ensures FIVE.Valid() && OTHER_FIVE.Valid()
    ensures var edits := [Edit({(1, 5)}, []), Edit({}, [(1, OTHER_FIVE)])];
      && OneByOne({FIVE}, edits, 1) == {OTHER_FIVE}
      && SavedFiles({FIVE}, AllDeleted(edits, 1), AllAdded(edits, 1)) == {FIVE, OTHER_FIVE}
  {
    var e0, e1 := Edit({(1, 5)}, []), Edit({}, [(1, OTHER_FIVE)]);
    var edits := [e0, e1];
    assert edits[..1] == [e0] && [e0][..0] == [];
    assert (1, 5) in e0.deleted && DeletedAt(e0, 1) == {5} && AddedAt(e0, 1) == {};
    assert e1.added[0].1 == OTHER_FIVE && DeletedAt(e1, 1) == {} && AddedAt(e1, 1) == {OTHER_FIVE};
    assert OTHER_FIVE.number in Numbers({OTHER_FIVE}) && Numbers({OTHER_FIVE}) == {5};
    assert AllDeleted([e0], 1) == {5} && AllAdded([e0], 1) == {};
    assert AllDeleted(edits, 1) == {} && AllAdded(edits, 1) == {OTHER_FIVE};
    assert OneByOne({FIVE}, [e0], 1) == {};
  }

  // ---------------------------------------------------------------------
  // The builder
  // ---------------------------------------------------------------------

  /** A list in order is determined by its files. */
  lemma {:induction false} SortedListIsUnique(a: seq<File>, b: seq<File>)
    requires SortedBySmallest(a) && SortedBySmallest(b)
    requires forall f :: f in a <==> f in b
    ensures a == b
  {
    assert b != [] ==> b[0] in b && b[0] in a;
    if a != [] {
      assert a[0] in b && b[0] in b;
      FirstIsSame(a, b);
      forall f ensures f in a[1..] <==> f in b[1..] {
        RestMembers(a, f);
        RestMembers(b, f);
      }
      SortedListIsUnique(a[1..], b[1..]);
      assert a == [a[0]] + a[1..] && b == [b[0]] + b[1..];
    }
  }

  lemma FirstIsSame(a: seq<File>, b: seq<File>)
    requires SortedBySmallest(a) && SortedBySmallest(b) && a != [] && b != []
    requires a[0] in b && b[0] in a
    ensures a[0] == b[0]
  {
    var i :| 0 <= i < |b| && b[i] == a[0];
    var j :| 0 <= j < |a| && a[j] == b[0];
    assert i > 0 ==> BySmallest(b[0], b[i]);
    assert j > 0 ==> BySmallest(a[0], a[j]);
  }

  lemma RestMembers(a: seq<File>, f: File)
    requires SortedBySmallest(a) && a != []
    ensures f in a[1..] <==> f in a && f != a[0]
  {
    assert a == [a[0]] + a[1..];
    forall i | 1 <= i < |a| ensures a[i] != a[0] {
      assert BySmallest(a[0], a[i]);
    }
  }

  /** `FileSet::insert`: in order, and not twice. */
  method InsertFile(files: seq<File>, f: File) returns (r: seq<File>)
    requires SortedBySmallest(files)
    requires forall g :: g in files && g.number == f.number ==> g == f
    ensures SortedBySmallest(r) && forall g :: g in r <==> g in files || g == f
  {
    var k := 0;
    while k < |files| && BySmallest(files[k], f)
      invariant 0 <= k <= |files|
      invariant forall i :: 0 <= i < k ==> BySmallest(files[i], f)
    {
      k := k + 1;
    }
    if k < |files| && files[k].smallest == f.smallest && files[k].number == f.number {
      assert files[k] in files;
      return files;
    }
    r := files[..k] + [f] + files[k..];
    InsertedAt(files, k, f);
  }

  lemma InsertedAt(files: seq<File>, k: nat, f: File)
    requires SortedBySmallest(files) && k <= |files|
    requires forall i :: 0 <= i < k ==> BySmallest(files[i], f)
    requires k < |files| ==> BySmallest(f, files[k])
    ensures var r := files[..k] + [f] + files[k..];
      SortedBySmallest(r) && forall g :: g in r <==> g in files || g == f
  {
    var before, after := files[..k], files[k..];
    forall i | 0 <= i < |after| ensures BySmallest(f, after[i]) {
      assert i == 0 || BySmallest(files[k], files[k + i]);
    }
    forall g ensures g in before + [f] + after <==> g in files || g == f {
      assert files == before + after;
    }
  }

  /** Saved files of a prefix of both lists. */
  ghost predicate Merged(out: seq<File>, base: seq<File>, b: nat, added: seq<File>, a: nat, deleted: set<nat>)
    requires b <= |base| && a <= |added|
  {
    && SortedBySmallest(out)
    && (forall f :: f in out <==> (f in base[..b] || f in added[..a]) && f.number !in deleted)
    && (forall i, j :: 0 <= i < |out| && b <= j < |base| ==> BySmallest(out[i], base[j]))
    && (forall i, j :: 0 <= i < |out| && a <= j < |added| ==> BySmallest(out[i], added[j]))
  }

  /** `MaybeAddFile` */
  method MaybeAddFile(out: seq<File>, f: File, deleted: set<nat>) returns (r: seq<File>)
    ensures r == if f.number in deleted then out else out + [f]
  {
    r := out;
    if f.number in deleted {
    } else {
      r := r + [f];
    }
  }

  lemma TakeBase(out: seq<File>, base: seq<File>, b: nat, added: seq<File>, a: nat, deleted: set<nat>)
    requires b < |base| && a <= |added| && SortedBySmallest(base) && SortedBySmallest(added)
    requires Merged(out, base, b, added, a, deleted)
    requires a < |added| ==> BySmallest(base[b], added[a])
    ensures Merged(if base[b].number in deleted then out else out + [base[b]], base, b + 1, added, a, deleted)
  {
    assert base[..b + 1] == base[..b] + [base[b]];
    forall j | a <= j < |added| ensures BySmallest(base[b], added[j]) {
      assert j == a || BySmallest(added[a], added[j]);
    }
  }

  lemma TakeAdded(out: seq<File>, base: seq<File>, b: nat, added: seq<File>, a: nat, deleted: set<nat>)
    requires b <= |base| && a < |added| && SortedBySmallest(base) && SortedBySmallest(added)
    requires Merged(out, base, b, added, a, deleted)
    requires b < |base| ==> BySmallest(added[a], base[b])
    ensures Merged(if added[a].number in deleted then out else out + [added[a]], base, b, added, a + 1, deleted)
  {
    assert added[..a + 1] == added[..a] + [added[a]];
    forall j | b <= j < |base| ensures BySmallest(added[a], base[j]) {
      assert j == b || BySmallest(base[b], base[j]);
    }
  }

  /** `SaveTo` at one level: merge the two sorted lists, dropping deleted files. */
  method SaveLevel(base: seq<File>, deleted: set<nat>, added: seq<File>) returns (out: seq<File>)
    requires SortedBySmallest(base) && SortedBySmallest(added)
    requires forall f, g :: f in base && g in added ==> f.number != g.number
    ensures SortedBySmallest(out)
    ensures FilesOf(out) == SavedFiles(FilesOf(base), deleted, FilesOf(added))
  {
    out := [];
    var b := 0;
    for a := 0 to |added|
      invariant 0 <= b <= |base| && Merged(out, base, b, added, a, deleted)
    {
      // std::upper_bound from the current base file on
      while b < |base| && !BySmallest(added[a], base[b])
        invariant 0 <= b <= |base| && Merged(out, base, b, added, a, deleted)
      {
        EitherOrder(base, b, added, a);
        TakeBase(out, base, b, added, a, deleted);
        out := MaybeAddFile(out, base[b], deleted);
        b := b + 1;
      }
      TakeAdded(out, base, b, added, a, deleted);
      out := MaybeAddFile(out, added[a], deleted);
    }
    while b < |base|
      invariant 0 <= b <= |base| && Merged(out, base, b, added, |added|, deleted)
    {
      TakeBase(out, base, b, added, |added|, deleted);
      out := MaybeAddFile(out, base[b], deleted);
      b := b + 1;
    }
    AllMerged(out, base, added, deleted);
  }

  lemma EitherOrder(base: seq<File>, b: nat, added: seq<File>, a: nat)
    requires b < |base| && a < |added| && (forall f, g :: f in base && g in added ==> f.number != g.number)
    ensures BySmallest(base[b], added[a]) || BySmallest(added[a], base[b])
  {
    assert base[b] in base && added[a] in added;
    CompareIsBefore(base[b].smallest, added[a].smallest);
    CompareIsBefore(added[a].smallest, base[b].smallest);
  }

  lemma AllMerged(out: seq<File>, base: seq<File>, added: seq<File>, deleted: set<nat>)
    requires Merged(out, base, |base|, added, |added|, deleted)
    ensures SortedBySmallest(out)
    ensures FilesOf(out) == SavedFiles(FilesOf(base), deleted, FilesOf(added))
  {
    assert base[..|base|] == base && added[..|added|] == added;
  }

  /** No two files with one number among those added to a level. */
  predicate Identified(files: set<File>) {
    forall f, g :: f in files && g in files && f.number == g.number ==> f == g
  }

  function WithDeleted(deleted: seq<set<nat>>, e: Edit): (r: seq<set<nat>>)
    ensures |r| == |deleted| && forall l :: 0 <= l < |r| ==> r[l] == deleted[l] + DeletedAt(e, l)
  {
    seq(|deleted|, l requires 0 <= l < |deleted| => deleted[l] + DeletedAt(e, l))
  }

  class Builder {
    const base: Levels
    var deleted: seq<set<nat>>
    var added: seq<seq<File>>

    ghost var edits: seq<Edit>

    ghost predicate Valid()
      reads this
    {
      && |base| == |deleted| == |added| == NUM_LEVELS
      && forall l :: 0 <= l < NUM_LEVELS ==>
           LevelIs(deleted[l], added[l], AllDeleted(edits, l), AllAdded(edits, l))
    }

    constructor (base: Levels)
      requires |base| == NUM_LEVELS
      ensures Valid() && edits == [] && this.base == base
    {
      this.base := base;
      this.deleted, this.added := seq(NUM_LEVELS, _ => {}), seq(NUM_LEVELS, _ => []);
      this.edits := [];
    }

    method Apply(e: Edit)
      requires Valid() && LevelsExist(e)
      requires forall l :: 0 <= l < NUM_LEVELS ==> Identified(AllAdded(edits, l) + AddedAt(e, l))
      modifies this
      ensures Valid() && edits == old(edits) + [e]
    {
      MarkDeleted(e);
      AddNewFiles(e);
      AppliedIsSaved(e, edits, old(deleted), old(added), deleted, added);
      edits := edits + [e];
    }

    method AddNewFiles(e: Edit)
      requires |deleted| == |added| == NUM_LEVELS && LevelsExist(e)
      requires forall l :: 0 <= l < NUM_LEVELS ==>
        SortedBySmallest(added[l]) && Identified(FilesOf(added[l]) + AddedAt(e, l))
      modifies this`deleted, this`added
      ensures AppliedUpTo(e, |e.added|, old(deleted), old(added), deleted, added)
    {
      var i := 0;
      while i < |e.added|
        invariant AppliedUpTo(e, i, old(deleted), old(added), deleted, added)
      {
        AddNewFile(e, i, old(deleted), old(added));
        i := i + 1;
      }
    }

    method AddNewFile(e: Edit, i: nat, ghost deleted0: seq<set<nat>>, ghost added0: seq<seq<File>>)
      requires i < |e.added| && LevelsExist(e) && AppliedUpTo(e, i, deleted0, added0, deleted, added)
      requires Identified(FilesOf(added0[e.added[i].0]) + AddedAt(e, e.added[i].0))
      modifies this`deleted, this`added
      ensures AppliedUpTo(e, i + 1, deleted0, added0, deleted, added)
    {
      FileIsNew(e, i, deleted0, added0, deleted, added);
      AddFile(e.added[i].0, e.added[i].1);
      OneMoreApplied(e, i, deleted0, added0, old(deleted), old(added), deleted, added);
    }

    method AddFile(level: nat, f: File)
      requires level < |deleted| == |added| && SortedBySmallest(added[level])
      requires forall g :: g in FilesOf(added[level]) && g.number == f.number ==> g == f
      modifies this`deleted, this`added
      ensures deleted == old(deleted)[level := old(deleted)[level] - {f.number}]
      ensures |added| == |old(added)| && added == old(added)[level := added[level]]
      ensures SortedBySmallest(added[level]) && FilesOf(added[level]) == FilesOf(old(added)[level]) + {f}
    {
      deleted := deleted[level := deleted[level] - {f.number}];
      var more := InsertFile(added[level], f);
      added := added[level := more];
    }

    method MarkDeleted(e: Edit)
      requires |deleted| == NUM_LEVELS && LevelsExist(e)
      modifies this`deleted
      ensures deleted == WithDeleted(old(deleted), e)
    {
      var rest := e.deleted;
      while rest != {}
        invariant rest <= e.deleted && |deleted| == NUM_LEVELS
        invariant forall l :: 0 <= l < NUM_LEVELS ==>
          deleted[l] == old(deleted)[l] + DeletedAt(Edit(e.deleted - rest, []), l)
        decreases |rest|
      {
        var d :| d in rest;
        OneMoreDeleted(e.deleted - rest, d);
        assert e.deleted - (rest - {d}) == (e.deleted - rest) + {d};
        rest := rest - {d};
        deleted := deleted[d.0 := deleted[d.0] + {d.1}];
      }
      assert e.deleted - {} == e.deleted;
    }

    /** The files of each level, in order. */
    method SaveTo() returns (v: Levels)
      requires Valid()
      requires forall l :: 0 <= l < NUM_LEVELS ==>
        SortedBySmallest(base[l]) && Numbers(FilesOf(base[l])) !! Numbers(AllAdded(edits, l))
      ensures |v| == NUM_LEVELS
      ensures forall l :: 0 <= l < NUM_LEVELS ==>
        && SortedBySmallest(v[l])
        && FilesOf(v[l]) == SavedFiles(FilesOf(base[l]), AllDeleted(edits, l), AllAdded(edits, l))
    {
      v := [];
      for level := 0 to NUM_LEVELS
        invariant |v| == level
        invariant forall l :: 0 <= l < level ==>
          && SortedBySmallest(v[l])
          && FilesOf(v[l]) == SavedFiles(FilesOf(base[l]), AllDeleted(edits, l), AllAdded(edits, l))
      {
        assert LevelIs(deleted[level], added[level], AllDeleted(edits, level), AllAdded(edits, level));
        NoSharedNumber(base[level], added[level]);
        var files := SaveLevel(base[level], deleted[level], added[level]);
        v := v + [files];
      }
    }
  }

  predicate LevelIs(deleted: set<nat>, added: seq<File>, allDeleted: set<nat>, allAdded: set<File>) {
    deleted == allDeleted && SortedBySmallest(added) && FilesOf(added) == allAdded
  }

  function AddedBefore(e: Edit, n: nat, level: nat): set<File>
    requires n <= |e.added|
  {
    set i | 0 <= i < n && e.added[i].0 == level :: e.added[i].1
  }

  lemma OneMoreAdded(e: Edit, i: nat)
    requires i < |e.added|
    ensures forall l: nat ::
      AddedBefore(e, i + 1, l) == AddedBefore(e, i, l) + if e.added[i].0 == l then {e.added[i].1} else {}
  {
  }

  ghost predicate AppliedUpTo(e: Edit, i: nat, deleted0: seq<set<nat>>, added0: seq<seq<File>>,
                              deleted: seq<set<nat>>, added: seq<seq<File>>) {
    && i <= |e.added|
    && |deleted0| == |added0| == |deleted| == |added| == NUM_LEVELS
    && forall l :: 0 <= l < NUM_LEVELS ==>
         LevelIs(deleted[l], added[l], deleted0[l] - Numbers(AddedBefore(e, i, l)),
           FilesOf(added0[l]) + AddedBefore(e, i, l))
  }

  lemma OneMoreApplied(e: Edit, i: nat, deleted0: seq<set<nat>>, added0: seq<seq<File>>,
                       deleted: seq<set<nat>>, added: seq<seq<File>>, deleted': seq<set<nat>>, added': seq<seq<File>>)
    requires i < |e.added| && e.added[i].0 < NUM_LEVELS && AppliedUpTo(e, i, deleted0, added0, deleted, added)
    requires var level, f := e.added[i].0, e.added[i].1;
      && deleted' == deleted[level := deleted[level] - {f.number}]
      && |added'| == |added| && added' == added[level := added'[level]]
      && SortedBySmallest(added'[level]) && FilesOf(added'[level]) == FilesOf(added[level]) + {f}
    ensures AppliedUpTo(e, i + 1, deleted0, added0, deleted', added')
  {
    var level, f := e.added[i].0, e.added[i].1;
    OneMoreAdded(e, i);
    forall l | 0 <= l < NUM_LEVELS
      ensures LevelIs(deleted'[l], added'[l], deleted0[l] - Numbers(AddedBefore(e, i + 1, l)),
                      FilesOf(added0[l]) + AddedBefore(e, i + 1, l))
    {
      assert LevelIs(deleted[l], added[l], deleted0[l] - Numbers(AddedBefore(e, i, l)),
                     FilesOf(added0[l]) + AddedBefore(e, i, l));
      NumbersWith(AddedBefore(e, i, l), f);
    }
  }

  lemma NumbersWith(files: set<File>, f: File)
    ensures Numbers(files + {f}) == Numbers(files) + {f.number}
  {
    assert f in files + {f};
  }

  lemma FileIsNew(e: Edit, i: nat, deleted0: seq<set<nat>>, added0: seq<seq<File>>,
                  deleted: seq<set<nat>>, added: seq<seq<File>>)
    requires i < |e.added| && e.added[i].0 < NUM_LEVELS && AppliedUpTo(e, i, deleted0, added0, deleted, added)
    requires Identified(FilesOf(added0[e.added[i].0]) + AddedAt(e, e.added[i].0))
    ensures SortedBySmallest(added[e.added[i].0])
    ensures forall g :: g in FilesOf(added[e.added[i].0]) && g.number == e.added[i].1.number ==> g == e.added[i].1
  {
    var level := e.added[i].0;
    assert LevelIs(deleted[level], added[level], deleted0[level] - Numbers(AddedBefore(e, i, level)),
                   FilesOf(added0[level]) + AddedBefore(e, i, level));
    assert e.added[i].1 in AddedAt(e, level);
    assert AddedBefore(e, i, level) <= AddedAt(e, level);
  }

  lemma AppliedIsSaved(e: Edit, edits: seq<Edit>, deleted0: seq<set<nat>>, added0: seq<seq<File>>,
                       deleted: seq<set<nat>>, added: seq<seq<File>>)
    requires |deleted0| == |added0| == NUM_LEVELS
    requires forall l :: 0 <= l < NUM_LEVELS ==>
      LevelIs(deleted0[l], added0[l], AllDeleted(edits, l), AllAdded(edits, l))
    requires AppliedUpTo(e, |e.added|, WithDeleted(deleted0, e), added0, deleted, added)
    ensures forall l :: 0 <= l < NUM_LEVELS ==>
      LevelIs(deleted[l], added[l], AllDeleted(edits + [e], l), AllAdded(edits + [e], l))
  {
    assert (edits + [e])[..|edits|] == edits;
    forall l | 0 <= l < NUM_LEVELS
      ensures LevelIs(deleted[l], added[l], AllDeleted(edits + [e], l), AllAdded(edits + [e], l))
    {
      assert AddedBefore(e, |e.added|, l) == AddedAt(e, l);
      assert LevelIs(deleted0[l], added0[l], AllDeleted(edits, l), AllAdded(edits, l));
    }
  }

  lemma OneMoreDeleted(files: set<(nat, nat)>, d: (nat, nat))
    ensures forall l: nat ::
      DeletedAt(Edit(files + {d}, []), l) == DeletedAt(Edit(files, []), l) + if d.0 == l then {d.1} else {}
  {
  }

  lemma NoSharedNumber(base: seq<File>, added: seq<File>)
    requires Numbers(FilesOf(base)) !! Numbers(FilesOf(added))
    ensures forall f, g :: f in base && g in added ==> f.number != g.number
  {
    forall f, g | f in base && g in added ensures f.number != g.number {
      assert f.number in Numbers(FilesOf(base)) && g.number in Numbers(FilesOf(added));
    }
  }

  // ---------------------------------------------------------------------
  // Replaying a manifest
  // ---------------------------------------------------------------------

  /** At this level no file number is added twice, by the edits or over the base. */
  ghost predicate Replayable(base: set<File>, edits: seq<Edit>, level: nat) {
    && AddedOnce(base, edits, level)
    && forall k :: 0 <= k < |edits| ==> Identified(AddedAt(edits[k], level))
  }

  lemma {:induction false} AddedIsIdentified(base: set<File>, edits: seq<Edit>, level: nat, n: nat)
    requires Replayable(base, edits, level) && n <= |edits|
    ensures Identified(AllAdded(edits[..n], level))
    ensures Numbers(base) !! Numbers(AllAdded(edits[..n], level))
  {
    if n > 0 {
      AddedIsIdentified(base, edits, level, n - 1);
      assert edits[..n][..n - 1] == edits[..n - 1];
      var before, more := AllAdded(edits[..n - 1], level), AddedAt(edits[n - 1], level);
      assert forall f :: f in base + before ==> f.number in Numbers(base + before);
      assert forall f :: f in more ==> f.number !in Numbers(base + before);
    }
  }

  lemma {:induction false} OneByOneSubset(base: set<File>, edits: seq<Edit>, level: nat)
    ensures OneByOne(base, edits, level) <= base + AllAdded(edits, level)
  {
    if edits != [] {
      OneByOneSubset(base, edits[..|edits| - 1], level);
    }
  }

  /** `Recover`: all edits go through one builder, which saves once. */
  method Recover(base: Levels, edits: seq<Edit>) returns (v: Levels)
    requires |base| == NUM_LEVELS && forall k :: 0 <= k < |edits| ==> LevelsExist(edits[k])
    requires forall l :: 0 <= l < NUM_LEVELS ==>
      SortedBySmallest(base[l]) && Replayable(FilesOf(base[l]), edits, l)
    ensures |v| == NUM_LEVELS
    ensures forall l :: 0 <= l < NUM_LEVELS ==>
      SortedBySmallest(v[l]) && FilesOf(v[l]) == OneByOne(FilesOf(base[l]), edits, l)
  {
    var builder := new Builder(base);
    for k := 0 to |edits|
      invariant fresh(builder) && builder.Valid() && builder.base == base && builder.edits == edits[..k]
    {
      forall l | 0 <= l < NUM_LEVELS ensures Identified(AllAdded(edits[..k], l) + AddedAt(edits[k], l)) {
        AddedIsIdentified(FilesOf(base[l]), edits, l, k + 1);
        assert edits[..k + 1][..k] == edits[..k];
      }
      builder.Apply(edits[k]);
      assert edits[..k + 1] == edits[..k] + [edits[k]];
    }
    assert edits[..|edits|] == edits;
    forall l | 0 <= l < NUM_LEVELS ensures Numbers(FilesOf(base[l])) !! Numbers(AllAdded(edits, l)) {
      AddedIsIdentified(FilesOf(base[l]), edits, l, |edits|);
    }
    v := builder.SaveTo();
    forall l | 0 <= l < NUM_LEVELS ensures FilesOf(v[l]) == OneByOne(FilesOf(base[l]), edits, l) {
      OneSaveSuffices(FilesOf(base[l]), edits, l);
    }
  }

  /** `LogAndApply`: a new version from one edit. */
  method LogAndApply(base: Levels, e: Edit) returns (v: Levels)
    requires |base| == NUM_LEVELS && LevelsExist(e)
    requires forall l :: 0 <= l < NUM_LEVELS ==>
      SortedBySmallest(base[l]) && Identified(AddedAt(e, l)) && Numbers(FilesOf(base[l])) !! Numbers(AddedAt(e, l))
    ensures |v| == NUM_LEVELS
    ensures forall l :: 0 <= l < NUM_LEVELS ==>
      && SortedBySmallest(v[l])
      && FilesOf(v[l]) == SavedFiles(FilesOf(base[l]), DeletedAfter({}, e, l), AddedAt(e, l))
  {
    var builder := new Builder(base);
    OneEdit(e);
    builder.Apply(e);
    v := builder.SaveTo();
  }

  lemma OneEdit(e: Edit)
    ensures forall l: nat :: AllAdded([e], l) == AddedAt(e, l) && AllAdded([], l) + AddedAt(e, l) == AddedAt(e, l)
    ensures forall l: nat :: AllDeleted([e], l) == DeletedAfter({}, e, l)
    ensures [] + [e] == [e]
  {
    assert [e][..0] == [];
  }

  /** The versions of a running database, one edit after the other. */
  method ApplyInTurn(base: Levels, edits: seq<Edit>) returns (v: Levels)
    requires |base| == NUM_LEVELS && forall k :: 0 <= k < |edits| ==> LevelsExist(edits[k])
    requires forall l :: 0 <= l < NUM_LEVELS ==>
      SortedBySmallest(base[l]) && Replayable(FilesOf(base[l]), edits, l)
    ensures |v| == NUM_LEVELS
    ensures forall l :: 0 <= l < NUM_LEVELS ==>
      SortedBySmallest(v[l]) && FilesOf(v[l]) == OneByOne(FilesOf(base[l]), edits, l)
  {
    v := base;
    for k := 0 to |edits|
      invariant |v| == NUM_LEVELS
      invariant forall l :: 0 <= l < NUM_LEVELS ==>
        SortedBySmallest(v[l]) && FilesOf(v[l]) == OneByOne(FilesOf(base[l]), edits[..k], l)
    {
      forall l | 0 <= l < NUM_LEVELS
        ensures Identified(AddedAt(edits[k], l)) && Numbers(FilesOf(v[l])) !! Numbers(AddedAt(edits[k], l))
      {
        NextIsNew(FilesOf(base[l]), edits, l, k);
      }
      v := LogAndApply(v, edits[k]);
      assert edits[..k + 1][..k] == edits[..k];
    }
    assert edits[..|edits|] == edits;
  }

  lemma NextIsNew(base: set<File>, edits: seq<Edit>, level: nat, k: nat)
    requires Replayable(base, edits, level) && k < |edits|
    ensures Numbers(OneByOne(base, edits[..k], level)) !! Numbers(AddedAt(edits[k], level))
  {
    OneByOneSubset(base, edits[..k], level);
    var before := base + AllAdded(edits[..k], level);
    assert forall f :: f in before ==> f.number in Numbers(before);
  }

  /** Reopening a database gives the version it was closed with: the same files
      in the same order, at every level. */
  method RecoverIsReplay(base: Levels, edits: seq<Edit>) returns (recovered: Levels, closed: Levels)
    requires |base| == NUM_LEVELS && forall k :: 0 <= k < |edits| ==> LevelsExist(edits[k])
    requires forall l :: 0 <= l < NUM_LEVELS ==>
      SortedBySmallest(base[l]) && Replayable(FilesOf(base[l]), edits, l)
    ensures recovered == closed
  {
    recovered := Recover(base, edits);
    closed := ApplyInTurn(base, edits);
    forall l | 0 <= l < NUM_LEVELS ensures recovered[l] == closed[l] {
      assert forall f :: f in recovered[l] <==> f in FilesOf(recovered[l]);
      assert forall f :: f in closed[l] <==> f in FilesOf(closed[l]);
      SortedListIsUnique(recovered[l], closed[l]);
    }
  }
}
