/** Choosing the input files of a compaction. */
module Inputs {
  import opened InternalKeys
  import opened Versions

  // ---------------------------------------------------------------------
  // Version::GetOverlappingInputs
  // ---------------------------------------------------------------------

  /** The files whose user-key range meets [lo, hi], in order. */
  function OverlappingFiles(files: seq<File>, lo: Option<UserKey>, hi: Option<UserKey>): seq<File> {
    if files == [] then []
    else
      var n := |files| - 1;
      OverlappingFiles(files[..n], lo, hi) + (if Overlaps(files[n], lo, hi) then [files[n]] else [])
  }

  lemma {:induction false} OverlappingMembers(files: seq<File>, lo: Option<UserKey>, hi: Option<UserKey>, f: File)
    ensures f in OverlappingFiles(files, lo, hi) <==> f in files && Overlaps(f, lo, hi)
  {
    if files != [] {
      var n := |files| - 1;
      assert files == files[..n] + [files[n]];
      OverlappingMembers(files[..n], lo, hi, f);
    }
  }

  predicate NoDuplicates(files: seq<File>) {
    forall i, j :: 0 <= i < j < |files| ==> files[i] != files[j]
  }

  lemma {:induction false} OverlappingNoDuplicates(files: seq<File>, lo: Option<UserKey>, hi: Option<UserKey>)
    requires NoDuplicates(files)
    ensures NoDuplicates(OverlappingFiles(files, lo, hi))
  {
    if files != [] {
      var n := |files| - 1;
      OverlappingNoDuplicates(files[..n], lo, hi);
      var init := OverlappingFiles(files[..n], lo, hi);
      forall i | 0 <= i < |init| ensures init[i] != files[n] {
        OverlappingMembers(files[..n], lo, hi, init[i]);
      }
    }
  }

  lemma OverlapsHaveNoDuplicates(files: seq<File>)
    ensures NoDuplicates(files) ==> forall lo, hi :: NoDuplicates(OverlappingFiles(files, lo, hi))
  {
    if NoDuplicates(files) {
      forall lo, hi ensures NoDuplicates(OverlappingFiles(files, lo, hi)) {
        OverlappingNoDuplicates(files, lo, hi);
      }
    }
  }

  predicate Inside(f: File, lo: Option<UserKey>, hi: Option<UserKey>) {
    && (lo.Some? ==> lo.value <= f.smallest.user)
    && (hi.Some? ==> f.largest.user <= hi.value)
  }

  /** Every file that meets the range lies inside it. */
  predicate ClosedRange(files: seq<File>, lo: Option<UserKey>, hi: Option<UserKey>) {
    forall f :: f in files && Overlaps(f, lo, hi) ==> Inside(f, lo, hi)
  }

  /** [lo, hi] is part of [a, b]. */
  predicate Includes(a: Option<UserKey>, b: Option<UserKey>, lo: Option<UserKey>, hi: Option<UserKey>) {
    && (a.None? || (lo.Some? && a.value <= lo.value))
    && (b.None? || (hi.Some? && hi.value <= b.value))
  }

  function StartsBefore(files: seq<File>, lo: Option<UserKey>): set<nat> {
    set k: nat | k < |files| && lo.Some? && files[k].smallest.user < lo.value
  }

  function EndsAfter(files: seq<File>, hi: Option<UserKey>): set<nat> {
    set k: nat | k < |files| && hi.Some? && files[k].largest.user > hi.value
  }

  /** [lo, hi] is part of every closed range around [begin, end]. */
  ghost predicate IsLeast(files: seq<File>, lo: Option<UserKey>, hi: Option<UserKey>, begin: Option<UserKey>,
                          end: Option<UserKey>) {
    forall a, b :: ClosedRange(files, a, b) && Includes(a, b, begin, end) ==> Includes(a, b, lo, hi)
  }

  /** The search has passed `i` files with the range [lo, hi]. */
  ghost predicate Searched(files: seq<File>, level: nat, i: nat, lo: Option<UserKey>, hi: Option<UserKey>,
                           begin: Option<UserKey>, end: Option<UserKey>, inputs: seq<File>) {
    && i <= |files|
    && inputs == OverlappingFiles(files[..i], lo, hi)
    && (level > 0 ==> lo == begin && hi == end)
    && (level == 0 ==> ClosedRange(files[..i], lo, hi))
    && Includes(lo, hi, begin, end)
    && lo.Some? == begin.Some? && hi.Some? == end.Some?
    && IsLeast(files, lo, hi, begin, end)
  }

  lemma PassFile(files: seq<File>, level: nat, i: nat, lo: Option<UserKey>, hi: Option<UserKey>,
                 begin: Option<UserKey>, end: Option<UserKey>, inputs: seq<File>)
    requires i < |files| && Searched(files, level, i, lo, hi, begin, end, inputs)
    requires level == 0 && Overlaps(files[i], lo, hi) ==> Inside(files[i], lo, hi)
    ensures Searched(files, level, i + 1, lo, hi, begin, end,
                     inputs + if Overlaps(files[i], lo, hi) then [files[i]] else [])
  {
    assert files[..i + 1] == files[..i] + [files[i]];
    assert files[..i + 1][..i] == files[..i];
    assert inputs + [] == inputs;
  }

  /** How much a range can still be widened. */
  function Room(files: seq<File>, lo: Option<UserKey>, hi: Option<UserKey>): nat {
    |StartsBefore(files, lo)| + |EndsAfter(files, hi)|
  }

  /** A file that sticks out on one side moves that end of the range. */
  lemma Restart(files: seq<File>, i: nat, lo: Option<UserKey>, hi: Option<UserKey>, begin: Option<UserKey>,
                end: Option<UserKey>, inputs: seq<File>, lo': Option<UserKey>, hi': Option<UserKey>)
    requires i < |files| && Searched(files, 0, i, lo, hi, begin, end, inputs) && Overlaps(files[i], lo, hi)
    requires || (hi' == hi && lo.Some? && files[i].smallest.user < lo.value && lo' == Some(files[i].smallest.user))
             || (lo' == lo && hi.Some? && files[i].largest.user > hi.value && hi' == Some(files[i].largest.user))
    ensures Searched(files, 0, 0, lo', hi', begin, end, [])
    ensures Room(files, lo', hi') < Room(files, lo, hi)
  {
    StillOverlaps(files, files[i], lo, hi, begin, end);
    if hi' == hi && lo' != lo {
      Shrinks(StartsBefore(files, lo'), StartsBefore(files, lo), i);
    } else {
      Shrinks(EndsAfter(files, hi'), EndsAfter(files, hi), i);
    }
  }

  lemma SearchIsDone(files: seq<File>, level: nat, lo: Option<UserKey>, hi: Option<UserKey>, begin: Option<UserKey>,
                     end: Option<UserKey>, inputs: seq<File>)
    requires Searched(files, level, |files|, lo, hi, begin, end, inputs)
    ensures inputs == OverlappingFiles(files, lo, hi) && (level == 0 ==> ClosedRange(files, lo, hi))
  {
    assert files[..|files|] == files;
  }

  /** One turn of the search: the range and the files found after file `i`. */
  method VisitFile(files: seq<File>, level: nat, i: nat, userBegin: Option<UserKey>, userEnd: Option<UserKey>,
                   inputs: seq<File>, ghost begin: Option<UserKey>, ghost end: Option<UserKey>)
    returns (i': nat, begin': Option<UserKey>, end': Option<UserKey>, inputs': seq<File>)
    requires i < |files| && Searched(files, level, i, userBegin, userEnd, begin, end, inputs)
    ensures Searched(files, level, i', begin', end', begin, end, inputs')
    ensures Room(files, begin', end') < Room(files, userBegin, userEnd)
            || (begin' == userBegin && end' == userEnd && i' == i + 1)
  {
    var f := files[i];
    i', begin', end', inputs' := i + 1, userBegin, userEnd, inputs;
    if userBegin.Some? && f.largest.user < userBegin.value {
      PassFile(files, level, i, userBegin, userEnd, begin, end, inputs);
    } else if userEnd.Some? && f.smallest.user > userEnd.value {
      PassFile(files, level, i, userBegin, userEnd, begin, end, inputs);
    } else {
      inputs' := inputs + [f];
      if level == 0 && userBegin.Some? && f.smallest.user < userBegin.value {
        Restart(files, i, userBegin, userEnd, begin, end, inputs, Some(f.smallest.user), userEnd);
        begin', inputs', i' := Some(f.smallest.user), [], 0;
      } else if level == 0 && userEnd.Some? && f.largest.user > userEnd.value {
        Restart(files, i, userBegin, userEnd, begin, end, inputs, userBegin, Some(f.largest.user));
        end', inputs', i' := Some(f.largest.user), [], 0;
      } else {
        PassFile(files, level, i, userBegin, userEnd, begin, end, inputs);
      }
    }
  }

  /** At level 0 the search restarts whenever a file widens the range; it stops
      at the least range around [begin, end] that is closed under overlap, and
      returns exactly the files that meet it. */
  method GetOverlappingInputs(files: seq<File>, level: nat, begin: Option<UserKey>, end: Option<UserKey>)
    returns (inputs: seq<File>, ghost lo: Option<UserKey>, ghost hi: Option<UserKey>)
    ensures inputs == OverlappingFiles(files, lo, hi)
    ensures level > 0 ==> lo == begin && hi == end
    ensures level == 0 ==> ClosedRange(files, lo, hi)
    ensures Includes(lo, hi, begin, end) && IsLeast(files, lo, hi, begin, end)
    ensures lo.Some? == begin.Some? && hi.Some? == end.Some?
  {
    inputs := [];
    var userBegin, userEnd := begin, end;
    var i: nat := 0;
    while i < |files|
      invariant Searched(files, level, i, userBegin, userEnd, begin, end, inputs)
      decreases Room(files, userBegin, userEnd), |files| - i
    {
      i, userBegin, userEnd, inputs := VisitFile(files, level, i, userBegin, userEnd, inputs, begin, end);
    }
    lo, hi := userBegin, userEnd;
    SearchIsDone(files, level, lo, hi, begin, end, inputs);
  }

  lemma Shrinks(small: set<nat>, large: set<nat>, k: nat)
    requires small <= large && k in large && k !in small
    ensures |small| < |large|
  {
    assert small <= large - {k};
    SubsetSize(small, large - {k});
  }

  lemma SubsetSize(a: set<nat>, b: set<nat>)
    requires a <= b
    ensures |a| <= |b|
  {
    if a != {} {
      var x :| x in a;
      SubsetSize(a - {x}, b - {x});
    }
  }

  /** A file that meets [lo, hi] is inside every closed range around [lo, hi]. */
  lemma StillOverlaps(files: seq<File>, f: File, lo: Option<UserKey>, hi: Option<UserKey>,
                      begin: Option<UserKey>, end: Option<UserKey>)
    requires f in files && Overlaps(f, lo, hi) && IsLeast(files, lo, hi, begin, end)
    ensures forall a, b :: ClosedRange(files, a, b) && Includes(a, b, begin, end) ==> Inside(f, a, b)
  {
    forall a, b | ClosedRange(files, a, b) && Includes(a, b, begin, end) ensures Inside(f, a, b) {
      assert Includes(a, b, lo, hi);
      assert Overlaps(f, a, b);
    }
  }

  // ---------------------------------------------------------------------
  // Version::PickLevelForMemTableOutput
  // ---------------------------------------------------------------------

  function TotalSize(size: File -> nat, files: seq<File>): nat {
    if files == [] then 0
    else
      var n := |files| - 1;
      TotalSize(size, files[..n]) + size(files[n])
  }

  method TotalFileSize(size: File -> nat, files: seq<File>) returns (sum: nat)
    ensures sum == TotalSize(size, files)
  {
    sum := 0;
    for i := 0 to |files|
      invariant sum == TotalSize(size, files[..i])
    {
      sum := sum + size(files[i]);
      assert files[..i + 1][..i] == files[..i];
    }
    assert files[..|files|] == files;
  }

  /** Some file of the list meets the user keys [lo, hi]. */
  predicate Meets(files: seq<File>, lo: UserKey, hi: UserKey) {
    exists f :: f in files && Overlaps(f, Some(lo), Some(hi))
  }

  lemma NonemptyMeets(files: seq<File>, lo: UserKey, hi: UserKey)
    requires OverlappingFiles(files, Some(lo), Some(hi)) != []
    ensures Meets(files, lo, hi)
  {
    OverlappingMembers(files, Some(lo), Some(hi), OverlappingFiles(files, Some(lo), Some(hi))[0]);
  }

  /** The bytes that a table of these keys would overlap two levels further down. */
  function GrandparentOverlap(levels: Levels, level: nat, lo: UserKey, hi: UserKey, size: File -> nat): nat
    requires level + 2 < |levels|
  {
    TotalSize(size, OverlappingFiles(levels[level + 2], Some(lo), Some(hi)))
  }

  /** A table of these keys passes every level before `level`, and meets no file down to it. */
  predicate ClearTo(levels: Levels, level: nat, lo: UserKey, hi: UserKey, size: File -> nat, limit: nat)
    requires level + 2 <= |levels|
  {
    && (forall l :: 0 <= l <= level ==> !Meets(levels[l], lo, hi))
    && (forall l :: 0 <= l < level ==> GrandparentOverlap(levels, l, lo, hi, size) <= limit)
  }

  /** The level a freshly written memtable table is placed at: as deep as it can
      go without meeting a file, or too many bytes of the level after the next. */
  method PickLevelForMemTableOutput(levels: Levels, smallest: UserKey, largest: UserKey, size: File -> nat, limit: nat)
    returns (level: nat)
    requires Shape(levels)
    ensures level <= MAX_MEM_COMPACT_LEVEL
    ensures level > 0 ==> ClearTo(levels, level, smallest, largest, size, limit)
    ensures level < MAX_MEM_COMPACT_LEVEL ==>
      || (level == 0 && Meets(levels[0], smallest, largest))
      || Meets(levels[level + 1], smallest, largest)
      || GrandparentOverlap(levels, level, smallest, largest, size) > limit
  {
    level := 0;
    var overlap := OverlapInLevel(levels, 0, smallest, largest);
    if !overlap {
      while level < MAX_MEM_COMPACT_LEVEL
        invariant level <= MAX_MEM_COMPACT_LEVEL
        invariant ClearTo(levels, level, smallest, largest, size, limit)
      {
        overlap := OverlapInLevel(levels, level + 1, smallest, largest);
        if overlap {
          break;
        }
        if level + 2 < NUM_LEVELS {
          var sum := GrandparentBytes(levels, level, smallest, largest, size);
          if sum > limit {
            break;
          }
        }
        ClearFurther(levels, level, smallest, largest, size, limit);
        level := level + 1;
      }
    }
  }

  lemma ClearFurther(levels: Levels, level: nat, lo: UserKey, hi: UserKey, size: File -> nat, limit: nat)
    requires level + 3 <= |levels| && ClearTo(levels, level, lo, hi, size, limit)
    requires !Meets(levels[level + 1], lo, hi) && GrandparentOverlap(levels, level, lo, hi, size) <= limit
    ensures ClearTo(levels, level + 1, lo, hi, size, limit)
  {
  }

  method GrandparentBytes(levels: Levels, level: nat, lo: UserKey, hi: UserKey, size: File -> nat) returns (sum: nat)
    requires level + 2 < |levels|
    ensures sum == GrandparentOverlap(levels, level, lo, hi, size)
  {
    ghost var first, last;
    var overlaps;
    overlaps, first, last := GetOverlappingInputs(levels[level + 2], level + 2, Some(lo), Some(hi));
    sum := TotalFileSize(size, overlaps);
  }

  method OverlapInLevel(levels: Levels, level: nat, lo: UserKey, hi: UserKey) returns (b: bool)
    requires Shape(levels) && level < NUM_LEVELS
    ensures b <==> Meets(levels[level], lo, hi)
  {
    b := SomeFileOverlapsRange(level > 0, levels[level], Some(lo), Some(hi));
  }

  /** Below level 0 the overlapping files are neighbours. */
  lemma OverlappingIsContiguous(files: seq<File>, lo: Option<UserKey>, hi: Option<UserKey>)
    requires Disjoint(files)
    requires OverlappingFiles(files, lo, hi) != []
    ensures Contiguous(files, OverlappingFiles(files, lo, hi))
  {
    LargestAscend(files);
    var a := 0;
    while a < |files| && AfterFile(lo, files[a])
      invariant 0 <= a <= |files|
      invariant forall k :: 0 <= k < a ==> AfterFile(lo, files[k])
    {
      a := a + 1;
    }
    var b := a;
    while b < |files| && !BeforeFile(hi, files[b])
      invariant a <= b <= |files|
      invariant forall k :: a <= k < b ==> !BeforeFile(hi, files[k])
    {
      b := b + 1;
    }
    forall k | 0 <= k < |files| ensures Overlaps(files[k], lo, hi) <==> a <= k < b {
      assert a < |files| && k > a ==> Before(files[a].largest, files[k].largest);
      assert b < |files| && k > b ==> Before(files[b].smallest, files[k].smallest);
    }
    FilterIsSlice(files, lo, hi, a, b);
    assert IsSlice(files, a, b, OverlappingFiles(files, lo, hi));
  }

  lemma {:induction false} FilterIsSlice(files: seq<File>, lo: Option<UserKey>, hi: Option<UserKey>, a: nat, b: nat)
    requires a <= b <= |files|
    requires forall k :: 0 <= k < |files| ==> (Overlaps(files[k], lo, hi) <==> a <= k < b)
    ensures OverlappingFiles(files, lo, hi) == files[a..b]
  {
    if files != [] {
      var n := |files| - 1;
      var init := files[..n];
      assert forall k :: 0 <= k < n ==> init[k] == files[k];
      FilterIsSlice(init, lo, hi, if a < n then a else n, if b < n then b else n);
      SliceOfInit(files, a, b);
    }
  }

  lemma SliceOfInit(files: seq<File>, a: nat, b: nat)
    requires a <= b <= |files| && files != []
    ensures var n := |files| - 1;
      var init := files[..n][if a < n then a else n..if b < n then b else n];
      files[a..b] == if a <= n < b then init + [files[n]] else init
  {
  }

  // ---------------------------------------------------------------------
  // AddBoundaryInputs
  // ---------------------------------------------------------------------

  /** `chosen` is a non-empty run of neighbours in `files`. */
  ghost predicate Contiguous(files: seq<File>, chosen: seq<File>) {
    exists a, b :: IsSlice(files, a, b, chosen)
  }

  predicate IsSlice(files: seq<File>, a: int, b: int, chosen: seq<File>) {
    0 <= a < b <= |files| && chosen == files[a..b]
  }

  /** `key` is the largest key of the (non-empty) set of files. */
  predicate IsLargest(files: seq<File>, key: InternalKey) {
    && (exists f :: f in files && f.largest == key)
    && (forall f :: f in files ==> f.largest == key || Before(f.largest, key))
  }

  /** `f` starts after `key`, with the same user key. */
  predicate IsBoundary(f: File, key: InternalKey) {
    Before(key, f.smallest) && f.smallest.user == key.user
  }

  method FindLargestKey(files: seq<File>) returns (key: Option<InternalKey>)
    ensures files == [] <==> key.None?
    ensures key.Some? ==> IsLargest(files, key.value)
  {
    if files == [] {
      return None;
    }
    var largest := files[0].largest;
    for i := 1 to |files|
      invariant IsLargest(files[..i], largest)
    {
      assert files[..i + 1] == files[..i] + [files[i]];
      if Before(largest, files[i].largest) {
        largest := files[i].largest;
        assert files[i] in files[..i + 1];
      }
    }
    assert files[..|files|] == files;
    key := Some(largest);
  }

  method FindSmallestBoundaryFile(levelFiles: seq<File>, largest: InternalKey) returns (r: Option<File>)
    ensures r.None? ==> forall f :: f in levelFiles ==> !IsBoundary(f, largest)
    ensures r.Some? ==> r.value in levelFiles && IsBoundary(r.value, largest)
    ensures r.Some? ==> forall f :: f in levelFiles && IsBoundary(f, largest) ==> !Before(f.smallest, r.value.smallest)
  {
    r := None;
    for i := 0 to |levelFiles|
      invariant r.None? ==> forall k :: 0 <= k < i ==> !IsBoundary(levelFiles[k], largest)
      invariant r.Some? ==> r.value in levelFiles && IsBoundary(r.value, largest)
      invariant r.Some? ==> forall k :: 0 <= k < i && IsBoundary(levelFiles[k], largest) ==>
        !Before(levelFiles[k].smallest, r.value.smallest)
    {
      var f := levelFiles[i];
      if Before(largest, f.smallest) && f.smallest.user == largest.user {
        if r.None? || Before(f.smallest, r.value.smallest) {
          r := Some(f);
        }
      }
    }
  }

  function StartsAfter(files: seq<File>, key: InternalKey): set<nat> {
    set k: nat | k < |files| && Before(key, files[k].smallest)
  }

  /** The first of the files that start after `key` with the same user key. */
  ghost predicate IsFirstBoundary(files: seq<File>, key: InternalKey, f: File) {
    && f in files && IsBoundary(f, key)
    && forall g :: g in files && IsBoundary(g, key) ==> !Before(g.smallest, f.smallest)
  }

  /** File `k` is the first boundary file of those before it. */
  ghost predicate FollowsAsBoundary(files: seq<File>, r: seq<File>, k: nat)
    requires k < |r|
  {
    exists key :: IsLargest(r[..k], key) && IsFirstBoundary(files, key, r[k])
  }

  /** Behind the first `n` files there are only boundary files, each of those before it. */
  ghost predicate BoundaryChain(files: seq<File>, r: seq<File>, n: nat) {
    forall k :: n <= k < |r| ==> FollowsAsBoundary(files, r, k)
  }

  /** `r` is `chosen` and all its boundary files, and no other file. */
  ghost predicate IsCompleted(files: seq<File>, chosen: seq<File>, r: seq<File>) {
    && chosen <= r && BoundaryChain(files, r, |chosen|)
    && forall key :: IsLargest(r, key) ==> forall f :: f in files ==> !IsBoundary(f, key)
  }

  lemma ChainGrows(files: seq<File>, r: seq<File>, n: nat, largest: InternalKey, f: File)
    requires BoundaryChain(files, r, n) && IsLargest(r, largest) && IsFirstBoundary(files, largest, f)
    ensures BoundaryChain(files, r + [f], n)
  {
    var longer := r + [f];
    forall k | n <= k < |longer| ensures FollowsAsBoundary(files, longer, k) {
      if k < |r| {
        assert longer[..k] == r[..k] && FollowsAsBoundary(files, r, k);
      } else {
        assert longer[..k] == r;
      }
    }
  }

  /** `r`, with the largest key `largest`, is `chosen` and boundary files added to it. */
  ghost predicate Extends(levelFiles: seq<File>, chosen: seq<File>, first: InternalKey, r: seq<File>,
                          largest: InternalKey) {
    && chosen <= r && IsLargest(r, largest)
    && (forall f :: f in r ==> f in chosen || f in levelFiles)
    && (NoDuplicates(chosen) ==> NoDuplicates(r))
    && (if r == chosen then largest == first else exists f :: f in levelFiles && IsBoundary(f, first))
    && (Disjoint(levelFiles) && Contiguous(levelFiles, chosen) ==> Contiguous(levelFiles, r))
  }

  lemma ExtendByBoundary(levelFiles: seq<File>, chosen: seq<File>, first: InternalKey, r: seq<File>,
                         largest: InternalKey, f: File)
    requires forall g :: g in levelFiles ==> !Before(g.largest, g.smallest)
    requires Extends(levelFiles, chosen, first, r, largest)
    requires f in levelFiles && IsBoundary(f, largest)
    requires forall g :: g in levelFiles && IsBoundary(g, largest) ==> !Before(g.smallest, f.smallest)
    ensures Extends(levelFiles, chosen, first, r + [f], f.largest)
    ensures |StartsAfter(levelFiles, f.largest)| < |StartsAfter(levelFiles, largest)|
  {
    if Disjoint(levelFiles) && Contiguous(levelFiles, r) {
      NextNeighbour(levelFiles, r, largest, f);
    }
    var k :| 0 <= k < |levelFiles| && levelFiles[k] == f;
    Shrinks(StartsAfter(levelFiles, f.largest), StartsAfter(levelFiles, largest), k);
    BoundaryIsNew(r, largest, f);
    assert f in r + [f];
  }

  /** Extends the set until no file of the level starts past its largest key
      with the same user key.  Neighbours stay neighbours. */
  method AddBoundaryInputs(levelFiles: seq<File>, compactionFiles: seq<File>) returns (r: seq<File>)
    requires forall f :: f in levelFiles ==> !Before(f.largest, f.smallest)
    ensures compactionFiles <= r
    ensures forall f :: f in r ==> f in compactionFiles || f in levelFiles
    ensures IsCompleted(levelFiles, compactionFiles, r)
    ensures forall key :: IsLargest(compactionFiles, key) && (forall f :: f in levelFiles ==> !IsBoundary(f, key)) ==>
      r == compactionFiles
    ensures Disjoint(levelFiles) && Contiguous(levelFiles, compactionFiles) ==> Contiguous(levelFiles, r)
    ensures NoDuplicates(compactionFiles) ==> NoDuplicates(r)
  {
    r := compactionFiles;
    var found := FindLargestKey(compactionFiles);
    if found.None? {
      return;
    }
    var largest := found.value;
    var continueSearching := true;
    while continueSearching
      invariant Extends(levelFiles, compactionFiles, found.value, r, largest)
      invariant BoundaryChain(levelFiles, r, |compactionFiles|)
      invariant !continueSearching ==> forall f :: f in levelFiles ==> !IsBoundary(f, largest)
      decreases continueSearching, |StartsAfter(levelFiles, largest)|
    {
      var boundary := FindSmallestBoundaryFile(levelFiles, largest);
      if boundary.Some? {
        var f := boundary.value;
        ExtendByBoundary(levelFiles, compactionFiles, found.value, r, largest, f);
        ChainGrows(levelFiles, r, |compactionFiles|, largest, f);
        r := r + [f];
        largest := f.largest;
      } else {
        continueSearching := false;
      }
    }
    OneLargest(r, largest);
    OneLargest(compactionFiles, found.value);
  }

  lemma BoundaryIsNew(files: seq<File>, largest: InternalKey, f: File)
    requires IsLargest(files, largest) && IsBoundary(f, largest) && !Before(f.largest, f.smallest)
    ensures f !in files
    ensures NoDuplicates(files) ==> NoDuplicates(files + [f])
  {
  }

  lemma OneLargest(files: seq<File>, key: InternalKey)
    requires IsLargest(files, key)
    ensures forall other :: IsLargest(files, other) ==> other == key
  {
  }

  lemma NextNeighbour(files: seq<File>, run: seq<File>, largest: InternalKey, f: File)
    requires Disjoint(files) && Contiguous(files, run) && IsLargest(run, largest)
    requires f in files && IsBoundary(f, largest)
    requires forall g :: g in files && IsBoundary(g, largest) ==> !Before(g.smallest, f.smallest)
    ensures Contiguous(files, run + [f])
  {
    var a, b := EndsOfRun(files, run, largest);
    var k :| 0 <= k < |files| && files[k] == f;
    NextInOrder(files, b, k);
    ExtendSlice(files, a, b, run);
  }

  lemma EndsOfRun(files: seq<File>, run: seq<File>, largest: InternalKey) returns (a: int, b: int)
    requires Disjoint(files) && Contiguous(files, run) && IsLargest(run, largest)
    ensures IsSlice(files, a, b, run) && largest == files[b - 1].largest
  {
    a, b :| IsSlice(files, a, b, run);
    LargestOfRun(files, run, a, b, largest);
  }

  lemma LargestBefore(files: seq<File>, i: nat, j: nat)
    requires Disjoint(files) && i <= j < |files|
    ensures i == j || Before(files[i].largest, files[j].largest)
  {
    LargestAscend(files);
  }

  lemma ExtendSlice(files: seq<File>, a: int, b: int, run: seq<File>)
    requires IsSlice(files, a, b, run) && b < |files|
    ensures Contiguous(files, run + [files[b]])
  {
    assert files[a..b + 1] == files[a..b] + [files[b]];
    assert IsSlice(files, a, b + 1, run + [files[b]]);
  }

  /** The boundary file with the smallest start is the next one in the level. */
  lemma NextInOrder(files: seq<File>, b: nat, k: nat)
    requires Disjoint(files) && 0 < b <= |files| && k < |files|
    requires IsBoundary(files[k], files[b - 1].largest)
    requires forall g :: g in files && IsBoundary(g, files[b - 1].largest) ==> !Before(g.smallest, files[k].smallest)
    ensures k == b
  {
    assert forall p :: 0 <= p < b - 1 ==> Before(files[p].largest, files[b - 1].smallest);
    if b < |files| {
      assert files[b] in files && Before(files[b - 1].largest, files[b].smallest);
    }
  }

  lemma LargestOfRun(files: seq<File>, run: seq<File>, a: nat, b: nat, largest: InternalKey)
    requires Disjoint(files) && IsSlice(files, a, b, run) && IsLargest(run, largest)
    ensures largest == files[b - 1].largest
  {
    assert run[|run| - 1] == files[b - 1];
    assert files[b - 1] in run;
    var f :| f in run && f.largest == largest;
    var k :| 0 <= k < |run| && run[k] == f;
    assert files[a + k] == f;
    LargestBefore(files, a + k, b - 1);
  }

  // ---------------------------------------------------------------------
  // What a chosen set leaves behind
  // ---------------------------------------------------------------------

  function Without(files: seq<File>, chosen: seq<File>): (r: seq<File>)
    ensures forall f :: f in r <==> f in files && f !in chosen
  {
    if files == [] then []
    else (if files[0] in chosen then [] else [files[0]]) + Without(files[1..], chosen)
  }

  /** Every entry left behind is newer than the chosen entries of its user key. */
  ghost predicate LeavesOnlyNewer(files: seq<File>, chosen: seq<File>) {
    NewerThan(EntriesOf(Without(files, chosen)), EntriesOf(chosen))
  }

  /** A run of neighbours with no boundary file after it leaves only newer entries. */
  lemma BoundaryClosedLeavesOnlyNewer(files: seq<File>, run: seq<File>, largest: InternalKey)
    requires Disjoint(files) && AllValid(files) && Contiguous(files, run)
    requires UniqueSequences(EntriesOf(files))
    requires IsLargest(run, largest)
    requires forall f :: f in files ==> !IsBoundary(f, largest)
    ensures LeavesOnlyNewer(files, run)
  {
    var a, b := EndsOfRun(files, run, largest);
    assert b < |files| ==> files[b] in files;
    forall x, y | x in EntriesOf(Without(files, run)) && y in EntriesOf(run) && x.key.user == y.key.user
      ensures x.key.sequence > y.key.sequence
    {
      var j := LeftBehindAt(files, a, b, run, x);
      var i := ChosenAt(files, a, b, run, y);
      RunLeavesNewer(files, a, b, i, j, x, y);
    }
  }

  lemma LeftBehindAt(files: seq<File>, a: int, b: int, run: seq<File>, x: Entry) returns (j: nat)
    requires IsSlice(files, a, b, run) && x in EntriesOf(Without(files, run))
    ensures j < |files| && !(a <= j < b) && x in files[j].entries
  {
    var g :| g in files && g !in run && x in g.entries;
    j :| 0 <= j < |files| && files[j] == g;
    assert forall p :: a <= p < b ==> files[p] == run[p - a];
  }

  lemma ChosenAt(files: seq<File>, a: int, b: int, run: seq<File>, y: Entry) returns (i: nat)
    requires IsSlice(files, a, b, run) && y in EntriesOf(run)
    ensures a <= i < b && y in files[i].entries
  {
    var f :| f in run && y in f.entries;
    var k :| 0 <= k < |run| && run[k] == f;
    i := a + k;
  }

  lemma RunLeavesNewer(files: seq<File>, a: nat, b: nat, i: nat, j: nat, x: Entry, y: Entry)
    requires Disjoint(files) && AllValid(files) && UniqueSequences(EntriesOf(files))
    requires a <= i < b <= |files| && j < |files| && !(a <= j < b)
    requires b < |files| ==> !IsBoundary(files[b], files[b - 1].largest)
    requires x in files[j].entries && y in files[i].entries && x.key.user == y.key.user
    ensures x.key.sequence > y.key.sequence
  {
    if j < a {
      StrictlyNewer(files, j, i, x, y);
    } else {
      NoSharedUser(files, b, i, j, x, y);
    }
  }

  /** In a disjoint level an earlier file's entry of a user key is strictly newer. */
  lemma StrictlyNewer(files: seq<File>, i: nat, j: nat, x: Entry, y: Entry)
    requires Disjoint(files) && AllValid(files) && i < j < |files|
    requires UniqueSequences(EntriesOf(files))
    requires x in files[i].entries && y in files[j].entries && x.key.user == y.key.user
    ensures x.key.sequence > y.key.sequence
  {
    assert files[i] in files && files[j] in files;
    EntryInRange(files[i], x);
    EntryInRange(files[j], y);
    assert x in EntriesOf(files) && y in EntriesOf(files);
    assert Before(x.key, y.key);
  }

  /** Without a boundary file at `b`, the files from `b` on share no user key
      with the files before. */
  lemma NoSharedUser(files: seq<File>, b: nat, i: nat, j: nat, x: Entry, y: Entry)
    requires Disjoint(files) && AllValid(files) && i < b <= j < |files|
    requires !IsBoundary(files[b], files[b - 1].largest)
    requires x in files[j].entries && y in files[i].entries
    ensures x.key.user > y.key.user
  {
    assert files[i] in files && files[j] in files;
    EntryInRange(files[j], x);
    EntryInRange(files[i], y);
    assert Before(files[b - 1].largest, files[b].smallest);
    assert i == b - 1 || Before(files[i].largest, files[b - 1].smallest);
    assert j == b || Before(files[b].largest, files[j].smallest);
  }

  /** At level 0, a set closed under overlap shares no user key with the rest. */
  lemma ClosedRangeLeavesOnlyNewer(files: seq<File>, lo: Option<UserKey>, hi: Option<UserKey>)
    requires AllValid(files) && ClosedRange(files, lo, hi)
    ensures LeavesOnlyNewer(files, OverlappingFiles(files, lo, hi))
  {
    var chosen := OverlappingFiles(files, lo, hi);
    forall x, y | x in EntriesOf(Without(files, chosen)) && y in EntriesOf(chosen)
      ensures x.key.user != y.key.user
    {
      var g :| g in files && g !in chosen && x in g.entries;
      var f :| f in chosen && y in f.entries;
      OverlappingMembers(files, lo, hi, f);
      OverlappingMembers(files, lo, hi, g);
      InsideAndOutside(f, g, lo, hi, y, x);
    }
  }

  lemma InsideAndOutside(f: File, g: File, lo: Option<UserKey>, hi: Option<UserKey>, y: Entry, x: Entry)
    requires f.Valid() && g.Valid() && y in f.entries && x in g.entries
    requires Inside(f, lo, hi) && !Overlaps(g, lo, hi)
    ensures x.key.user != y.key.user
  {
    EntryInRange(f, y);
    EntryInRange(g, x);
  }

  lemma ClosedRangeHasNoBoundary(files: seq<File>, lo: Option<UserKey>, hi: Option<UserKey>, key: InternalKey)
    requires forall f :: f in files ==> !Before(f.largest, f.smallest)
    requires ClosedRange(files, lo, hi) && IsLargest(OverlappingFiles(files, lo, hi), key)
    ensures forall g :: g in files ==> !IsBoundary(g, key)
  {
    var chosen := OverlappingFiles(files, lo, hi);
    var f :| f in chosen && f.largest == key;
    OverlappingMembers(files, lo, hi, f);
    forall g | g in files ensures !IsBoundary(g, key) {
      OverlappingMembers(files, lo, hi, g);
    }
  }

  // ---------------------------------------------------------------------
  // Picking and completing the inputs
  // ---------------------------------------------------------------------

  predicate IsSmallest(files: seq<File>, key: InternalKey) {
    && (exists f :: f in files && f.smallest == key)
    && (forall f :: f in files ==> f.smallest == key || Before(key, f.smallest))
  }

  lemma SmallestWith(files: seq<File>, f: File, key: InternalKey)
    requires IsSmallest(files, key)
    ensures IsSmallest(files + [f], if Before(f.smallest, key) then f.smallest else key)
  {
    assert f in files + [f];
    var g :| g in files && g.smallest == key;
    assert g in files + [f];
  }

  lemma LargestWith(files: seq<File>, f: File, key: InternalKey)
    requires IsLargest(files, key)
    ensures IsLargest(files + [f], if Before(key, f.largest) then f.largest else key)
  {
    assert f in files + [f];
    var g :| g in files && g.largest == key;
    assert g in files + [f];
  }

  lemma RangeOfUsers(files: seq<File>, smallest: InternalKey, largest: InternalKey)
    requires IsSmallest(files, smallest) && IsLargest(files, largest)
    ensures forall f :: f in files ==> smallest.user <= f.smallest.user && f.largest.user <= largest.user
  {
  }

  method GetRange(inputs: seq<File>) returns (smallest: InternalKey, largest: InternalKey)
    requires inputs != []
    ensures IsSmallest(inputs, smallest) && IsLargest(inputs, largest)
    ensures forall f :: f in inputs ==> smallest.user <= f.smallest.user && f.largest.user <= largest.user
  {
    smallest, largest := inputs[0].smallest, inputs[0].largest;
    for i := 1 to |inputs|
      invariant IsSmallest(inputs[..i], smallest) && IsLargest(inputs[..i], largest)
    {
      SmallestWith(inputs[..i], inputs[i], smallest);
      LargestWith(inputs[..i], inputs[i], largest);
      assert inputs[..i + 1] == inputs[..i] + [inputs[i]];
      if Before(inputs[i].smallest, smallest) {
        smallest := inputs[i].smallest;
      }
      if Before(largest, inputs[i].largest) {
        largest := inputs[i].largest;
      }
    }
    assert inputs[..|inputs|] == inputs;
    RangeOfUsers(inputs, smallest, largest);
  }

  /** What `PickCompaction` and `CompactRange` put into `inputs_[0]`. */
  ghost predicate PickedInputs(files: seq<File>, level: nat, picked: seq<File>) {
    && picked != []
    && (level == 0 ==> exists lo, hi :: ClosedRange(files, lo, hi) && picked == OverlappingFiles(files, lo, hi))
    && (level > 0 ==> Contiguous(files, picked))
  }

  /** `inputs_[1]` is every file of the next level that meets the range of
      `inputs_[0]`, from its smallest to its largest user key. */
  predicate NextLevelInputs(next: seq<File>, in0: seq<File>, in1: seq<File>, smallest: InternalKey,
                            largest: InternalKey) {
    && IsSmallest(in0, smallest) && IsLargest(in0, largest)
    && in1 == OverlappingFiles(next, Some(smallest.user), Some(largest.user))
  }

  ghost predicate HasNextLevelInputs(next: seq<File>, in0: seq<File>, in1: seq<File>) {
    exists smallest, largest :: NextLevelInputs(next, in0, in1, smallest, largest)
  }

  lemma RangeOfInputs(next: seq<File>, in0: seq<File>, in1: seq<File>) returns (lo: UserKey, hi: UserKey)
    requires HasNextLevelInputs(next, in0, in1)
    ensures forall f :: f in in0 ==> lo <= f.smallest.user && f.largest.user <= hi
    ensures in1 == OverlappingFiles(next, Some(lo), Some(hi))
  {
    var smallest, largest :| NextLevelInputs(next, in0, in1, smallest, largest);
    RangeOfUsers(in0, smallest, largest);
    lo, hi := smallest.user, largest.user;
  }

  /** The closure property of a compaction's inputs that the code establishes. */
  ghost predicate ChosenInputs(levels: Levels, level: nat, in0: seq<File>, in1: seq<File>) {
    && |levels| == NUM_LEVELS && level + 1 < NUM_LEVELS
    && in0 != []
    && (forall f :: f in in0 ==> f in levels[level])
    && LeavesOnlyNewer(levels[level], in0)
    && HasNextLevelInputs(levels[level + 1], in0, in1)
  }

  /** The files of level 0 in the least closed range around [begin, end]. */
  ghost predicate IsClosure(files: seq<File>, begin: Option<UserKey>, end: Option<UserKey>, picked: seq<File>) {
    exists lo, hi ::
      && ClosedRange(files, lo, hi) && Includes(lo, hi, begin, end) && IsLeast(files, lo, hi, begin, end)
      && picked == OverlappingFiles(files, lo, hi)
  }

  /** What `GetOverlappingInputs` returns. */
  ghost predicate Gathered(files: seq<File>, level: nat, begin: Option<UserKey>, end: Option<UserKey>, r: seq<File>) {
    if level == 0 then IsClosure(files, begin, end, r) else r == OverlappingFiles(files, begin, end)
  }

  /** `inputs_[0]` as it was picked: the seed, in level 0 with all that overlaps it. */
  ghost predicate PickedFrom(files: seq<File>, level: nat, seed: File, picked: seq<File>) {
    if level == 0 then IsClosure(files, Some(seed.smallest.user), Some(seed.largest.user), picked)
    else picked == [seed]
  }

  /** `PickCompaction` from any file of the level. */
  method PickCompaction(levels: Levels, level: nat, seed: File) returns (picked: seq<File>)
    requires Shape(levels) && level + 1 < NUM_LEVELS && seed in levels[level]
    ensures PickedInputs(levels[level], level, picked)
    ensures PickedFrom(levels[level], level, seed, picked) && seed in picked
    ensures NoDuplicates(levels[level]) ==> NoDuplicates(picked)
  {
    picked := [seed];
    if level == 0 {
      var smallest, largest := GetRange(picked);
      ghost var lo, hi;
      picked, lo, hi := GetOverlappingInputs(levels[0], 0, Some(smallest.user), Some(largest.user));
      assert picked == OverlappingFiles(levels[0], lo, hi);
      OverlapsHaveNoDuplicates(levels[0]);
      assert seed.Valid();
      EntryInRange(seed, seed.entries[0]);
      OverlappingMembers(levels[0], lo, hi, seed);
    } else {
      var k :| 0 <= k < |levels[level]| && levels[level][k] == seed;
      assert IsSlice(levels[level], k, k + 1, picked);
    }
  }

  /** All files that meet the range, or below level 0 the first of them. */
  ghost predicate CoversRange(files: seq<File>, level: nat, begin: Option<UserKey>, end: Option<UserKey>,
                              chosen: seq<File>) {
    var meeting := OverlappingFiles(files, begin, end);
    meeting != [] ==> meeting[0] in chosen && (level == 0 ==> forall f :: f in meeting ==> f in chosen)
  }

  lemma WiderMeets(f: File, begin: Option<UserKey>, end: Option<UserKey>, lo: Option<UserKey>, hi: Option<UserKey>)
    requires Includes(lo, hi, begin, end) && Overlaps(f, begin, end)
    ensures Overlaps(f, lo, hi)
  {
  }

  /** Widening a range as the search does keeps what it meets, or meets nothing. */
  lemma RangeIsCovered(files: seq<File>, level: nat, begin: Option<UserKey>, end: Option<UserKey>,
                       lo: Option<UserKey>, hi: Option<UserKey>)
    requires Includes(lo, hi, begin, end) && (level > 0 ==> lo == begin && hi == end)
    requires IsLeast(files, lo, hi, begin, end)
    ensures OverlappingFiles(files, lo, hi) == [] <==> forall f :: f in files ==> !Overlaps(f, begin, end)
    ensures CoversRange(files, level, begin, end, OverlappingFiles(files, lo, hi))
  {
    var picked, meeting := OverlappingFiles(files, lo, hi), OverlappingFiles(files, begin, end);
    forall f | f in files && Overlaps(f, begin, end) ensures f in picked {
      WiderMeets(f, begin, end, lo, hi);
      OverlappingMembers(files, lo, hi, f);
    }
    forall f | f in meeting ensures f in picked {
      OverlappingMembers(files, begin, end, f);
    }
    if forall f :: f in files ==> !Overlaps(f, begin, end) {
      NothingWidens(files, begin, end, lo, hi);
    }
  }

  lemma NothingWidens(files: seq<File>, begin: Option<UserKey>, end: Option<UserKey>, lo: Option<UserKey>,
                      hi: Option<UserKey>)
    requires forall f :: f in files ==> !Overlaps(f, begin, end)
    requires Includes(lo, hi, begin, end)
    requires IsLeast(files, lo, hi, begin, end)
    ensures OverlappingFiles(files, lo, hi) == []
  {
    assert ClosedRange(files, begin, end);
    assert Includes(begin, end, lo, hi);
    var picked := OverlappingFiles(files, lo, hi);
    if picked != [] {
      OverlappingMembers(files, lo, hi, picked[0]);
    }
  }

  /** Files already chosen are among those that meet a range around them. */
  lemma StillChosen(files: seq<File>, in0: seq<File>, start: UserKey, limit: UserKey, lo: Option<UserKey>,
                    hi: Option<UserKey>)
    requires forall f :: f in in0 ==> f in files && start <= f.smallest.user && f.largest.user <= limit
    requires forall f :: f in files ==> !Before(f.largest, f.smallest)
    requires Includes(lo, hi, Some(start), Some(limit))
    ensures forall f :: f in in0 ==> f in OverlappingFiles(files, lo, hi)
  {
    forall f | f in in0 ensures f in OverlappingFiles(files, lo, hi) {
      OverlappingMembers(files, lo, hi, f);
    }
  }

  /** `inputs_[0]` as a manual range picks it: in level 0 the closure of the range,
      below it the first of the files that meet the range. */
  ghost predicate RangePicked(files: seq<File>, level: nat, begin: Option<UserKey>, end: Option<UserKey>,
                              picked: seq<File>) {
    if level == 0 then IsClosure(files, begin, end, picked) else picked <= OverlappingFiles(files, begin, end)
  }

  /** `CompactRange`: the files that meet a manual range, cut short below
      level 0 at a size limit (left open). */
  method CompactRange(levels: Levels, level: nat, begin: Option<UserKey>, end: Option<UserKey>)
    returns (picked: seq<File>)
    requires Shape(levels) && level + 1 < NUM_LEVELS
    ensures picked == [] || PickedInputs(levels[level], level, picked)
    ensures NoDuplicates(levels[level]) ==> NoDuplicates(picked)
    ensures picked == [] <==> forall f :: f in levels[level] ==> !Overlaps(f, begin, end)
    ensures RangePicked(levels[level], level, begin, end, picked)
    ensures CoversRange(levels[level], level, begin, end, picked)
  {
    ghost var lo, hi;
    picked, lo, hi := GetOverlappingInputs(levels[level], level, begin, end);
    RangeIsCovered(levels[level], level, begin, end, lo, hi);
    OverlapsHaveNoDuplicates(levels[level]);
    if picked == [] {
      return;
    }
    if level > 0 {
      OverlappingIsContiguous(levels[level], lo, hi);
      picked := CutShort(levels[level], picked);
    }
  }

  /** At least one file; the size limit is left open. */
  method CutShort(files: seq<File>, picked: seq<File>) returns (r: seq<File>)
    requires Contiguous(files, picked)
    ensures r != [] && r <= picked && Contiguous(files, r)
  {
    for i := 0 to |picked| {
      if * {
        PrefixIsContiguous(files, picked, i + 1);
        return picked[..i + 1];
      }
    }
    r := picked;
  }

  lemma PrefixIsContiguous(files: seq<File>, run: seq<File>, n: nat)
    requires Contiguous(files, run) && 0 < n <= |run|
    ensures Contiguous(files, run[..n])
  {
    var a, b :| IsSlice(files, a, b, run);
    assert files[a..b][..n] == files[a..a + n];
    assert IsSlice(files, a, a + n, run[..n]);
  }

  /** `inputs_[0]` has grown: all files of the level that meet the range of both
      inputs, with their boundary files. */
  ghost predicate IsGrown(files: seq<File>, level: nat, base0: seq<File>, in1: seq<File>, in0: seq<File>) {
    |in0| > |base0| && exists smallest, largest, wide ::
      && IsSmallest(base0 + in1, smallest) && IsLargest(base0 + in1, largest)
      && Gathered(files, level, Some(smallest.user), Some(largest.user), wide)
      && IsCompleted(files, wide, in0)
  }

  /** `base0` is what was picked and its boundary files; `inputs_[1]` is what that
      needs, and growing `inputs_[0]` does not change it. */
  ghost predicate SetUpOver(levels: Levels, level: nat, picked: seq<File>, base0: seq<File>, in0: seq<File>,
                            in1: seq<File>)
    requires level + 1 < |levels|
  {
    && IsCompleted(levels[level], picked, base0)
    && HasNextLevelInputs(levels[level + 1], base0, in1)
    && (in0 == base0 || (in1 != [] && IsGrown(levels[level], level, base0, in1, in0)))
  }

  ghost predicate SetUp(levels: Levels, level: nat, picked: seq<File>, in0: seq<File>, in1: seq<File>)
    requires level + 1 < |levels|
  {
    exists base0 :: SetUpOver(levels, level, picked, base0, in0, in1)
  }

  /** `SetupOtherInputs`: boundary files, the next level's files, and the
      optional growth of `inputs_[0]` (its byte limit is left open). */
  method SetupOtherInputs(levels: Levels, level: nat, picked: seq<File>) returns (in0: seq<File>, in1: seq<File>)
    requires Shape(levels) && UniqueSequences(EntriesIn(levels)) && level + 1 < NUM_LEVELS
    requires PickedInputs(levels[level], level, picked)
    ensures ChosenInputs(levels, level, in0, in1) && SetUp(levels, level, picked, in0, in1)
    ensures forall f :: f in picked ==> f in in0
    ensures NoDuplicates(levels[level]) && NoDuplicates(picked) ==> NoDuplicates(in0)
    ensures NoDuplicates(levels[level + 1]) ==> NoDuplicates(in1)
  {
    in0 := CompleteLevel(levels, level, picked);
    PrefixMembers(picked, in0);
    in1 := InputsBelow(levels, level, in0);
    assert SetUpOver(levels, level, picked, in0, in0, in1);
    if in1 != [] {
      in0, in1 := GrowInputs(levels, level, picked, in0, in1);
    }
  }

  lemma PrefixMembers(a: seq<File>, b: seq<File>)
    requires a <= b
    ensures a != [] ==> b != []
    ensures forall f :: f in a ==> f in b
  {
  }

  /** The files of the next level that meet the range of `in0`. */
  method InputsBelow(levels: Levels, level: nat, in0: seq<File>) returns (in1: seq<File>)
    requires |levels| == NUM_LEVELS && level + 1 < NUM_LEVELS && in0 != []
    ensures HasNextLevelInputs(levels[level + 1], in0, in1)
    ensures NoDuplicates(levels[level + 1]) ==> NoDuplicates(in1)
  {
    var smallest, largest := GetRange(in0);
    ghost var lo, hi;
    in1, lo, hi := GetOverlappingInputs(levels[level + 1], level + 1, Some(smallest.user), Some(largest.user));
    assert NextLevelInputs(levels[level + 1], in0, in1, smallest, largest);
    OverlapsHaveNoDuplicates(levels[level + 1]);
  }

  /** More files of the level, as long as no more of the next level are needed. */
  method GrowInputs(levels: Levels, level: nat, ghost picked: seq<File>, in0: seq<File>, in1: seq<File>)
    returns (grown0: seq<File>, grown1: seq<File>)
    requires Shape(levels) && UniqueSequences(EntriesIn(levels))
    requires ChosenInputs(levels, level, in0, in1) && SetUpOver(levels, level, picked, in0, in0, in1) && in1 != []
    ensures ChosenInputs(levels, level, grown0, grown1) && SetUp(levels, level, picked, grown0, grown1)
    ensures forall f :: f in in0 ==> f in grown0
    ensures NoDuplicates(levels[level]) && NoDuplicates(in0) ==> NoDuplicates(grown0)
    ensures NoDuplicates(levels[level + 1]) && NoDuplicates(in1) ==> NoDuplicates(grown1)
  {
    grown0, grown1 := in0, in1;
    var allStart, allLimit := GetRange(in0 + in1);
    var expanded0 := ExpandLevel(levels, level, in0, allStart.user, allLimit.user);
    if |expanded0| > |in0| {
      if * {
        var expanded1 := InputsBelow(levels, level, expanded0);
        if |expanded1| == |in1| {
          GrowthIsSetUp(levels, level, picked, in0, in1, allStart, allLimit, expanded0, expanded1);
          grown0, grown1 := expanded0, expanded1;
        }
      }
    }
  }

  lemma GrowthIsSetUp(levels: Levels, level: nat, picked: seq<File>, in0: seq<File>, in1: seq<File>,
                      smallest: InternalKey, largest: InternalKey, more0: seq<File>, more1: seq<File>)
    requires level + 1 < |levels| && SetUpOver(levels, level, picked, in0, in0, in1) && in1 != []
    requires IsSmallest(in0 + in1, smallest) && IsLargest(in0 + in1, largest)
    requires exists wide :: Gathered(levels[level], level, Some(smallest.user), Some(largest.user), wide)
                            && IsCompleted(levels[level], wide, more0)
    requires (forall f :: f in in0 ==> f in more0) && |more0| > |in0| && |more1| == |in1|
    requires HasNextLevelInputs(levels[level + 1], more0, more1)
    ensures SetUp(levels, level, picked, more0, more1)
  {
    SameInputsBelow(levels[level + 1], in0, in1, more0, more1);
    assert IsGrown(levels[level], level, in0, in1, more0);
    assert SetUpOver(levels, level, picked, in0, more0, more1);
  }

  lemma {:induction false} WiderTakesMore(files: seq<File>, a: Option<UserKey>, b: Option<UserKey>, lo: Option<UserKey>,
                                          hi: Option<UserKey>)
    requires Includes(a, b, lo, hi)
    ensures |OverlappingFiles(files, lo, hi)| <= |OverlappingFiles(files, a, b)|
    ensures |OverlappingFiles(files, lo, hi)| == |OverlappingFiles(files, a, b)| ==>
      OverlappingFiles(files, lo, hi) == OverlappingFiles(files, a, b)
  {
    if files != [] {
      WiderTakesMore(files[..|files| - 1], a, b, lo, hi);
    }
  }

  /** More inputs that need no more files of the next level need the same ones. */
  lemma SameInputsBelow(next: seq<File>, in0: seq<File>, in1: seq<File>, more0: seq<File>, more1: seq<File>)
    requires HasNextLevelInputs(next, in0, in1) && HasNextLevelInputs(next, more0, more1)
    requires (forall f :: f in in0 ==> f in more0) && |more1| == |in1|
    ensures more1 == in1
  {
    var sm, lg :| NextLevelInputs(next, in0, in1, sm, lg);
    var lo, hi := RangeOfInputs(next, more0, more1);
    var f :| f in in0 && f.smallest == sm;
    var g :| g in in0 && g.largest == lg;
    assert f in more0 && g in more0;
    WiderTakesMore(next, Some(lo), Some(hi), Some(sm.user), Some(lg.user));
  }

  /** The files of the level that meet a range around those already chosen. */
  method ExpandLevel(levels: Levels, level: nat, in0: seq<File>, start: UserKey, limit: UserKey)
    returns (expanded0: seq<File>)
    requires Shape(levels) && UniqueSequences(EntriesIn(levels)) && level + 1 < NUM_LEVELS && in0 != []
    requires forall f :: f in in0 ==> f in levels[level] && start <= f.smallest.user && f.largest.user <= limit
    ensures forall f :: f in in0 ==> f in expanded0
    ensures forall f :: f in expanded0 ==> f in levels[level]
    ensures exists wide :: Gathered(levels[level], level, Some(start), Some(limit), wide)
                           && IsCompleted(levels[level], wide, expanded0)
    ensures LeavesOnlyNewer(levels[level], expanded0)
    ensures NoDuplicates(levels[level]) ==> NoDuplicates(expanded0)
  {
    ghost var lo, hi;
    expanded0, lo, hi := GetOverlappingInputs(levels[level], level, Some(start), Some(limit));
    ValidFilesAreOrdered(levels[level]);
    StillChosen(levels[level], in0, start, limit, lo, hi);
    assert in0[0] in expanded0;
    OverlapsHaveNoDuplicates(levels[level]);
    if level > 0 {
      OverlappingIsContiguous(levels[level], lo, hi);
    }
    assert Gathered(levels[level], level, Some(start), Some(limit), expanded0);
    expanded0 := CompleteLevel(levels, level, expanded0);
  }

  method CompleteLevel(levels: Levels, level: nat, picked: seq<File>) returns (r: seq<File>)
    requires Shape(levels) && UniqueSequences(EntriesIn(levels)) && level + 1 < NUM_LEVELS
    requires PickedInputs(levels[level], level, picked)
    ensures picked <= r && forall f :: f in r ==> f in levels[level]
    ensures IsCompleted(levels[level], picked, r)
    ensures LeavesOnlyNewer(levels[level], r)
    ensures NoDuplicates(picked) ==> NoDuplicates(r)
  {
    var files := levels[level];
    ValidFilesAreOrdered(files);
    r := AddBoundaryInputs(files, picked);
    ghost var largest := LargestExists(r);
    if level == 0 {
      Level0IsComplete(files, picked, r);
    } else {
      LevelIsUnique(levels, level);
      BoundaryClosedLeavesOnlyNewer(files, r, largest);
    }
  }

  lemma LargestExists(files: seq<File>) returns (key: InternalKey)
    requires files != []
    ensures IsLargest(files, key)
  {
    if |files| == 1 {
      key := files[0].largest;
      assert files[0] in files;
    } else {
      var n := |files| - 1;
      key := LargestExists(files[..n]);
      assert files == files[..n] + [files[n]];
      if Before(key, files[n].largest) {
        key := files[n].largest;
        assert files[n] in files;
      }
    }
  }

  /** In level 0 no boundary file is missing from a closed range. */
  lemma Level0IsComplete(files: seq<File>, picked: seq<File>, r: seq<File>)
    requires AllValid(files) && PickedInputs(files, 0, picked)
    requires forall key :: IsLargest(picked, key) && (forall f :: f in files ==> !IsBoundary(f, key)) ==> r == picked
    ensures r == picked && LeavesOnlyNewer(files, r)
    ensures forall f :: f in r ==> f in files
  {
    var lo, hi :| ClosedRange(files, lo, hi) && picked == OverlappingFiles(files, lo, hi);
    var largest := LargestExists(picked);
    ValidFilesAreOrdered(files);
    ClosedRangeHasNoBoundary(files, lo, hi, largest);
    ClosedRangeLeavesOnlyNewer(files, lo, hi);
    forall f | f in picked ensures f in files {
      OverlappingMembers(files, lo, hi, f);
    }
  }

  lemma ValidFilesAreOrdered(files: seq<File>)
    requires AllValid(files)
    ensures forall f :: f in files ==> !Before(f.largest, f.smallest)
  {
    forall f | f in files ensures !Before(f.largest, f.smallest) {
      EntryInRange(f, f.entries[0]);
    }
  }

  lemma LevelIsUnique(levels: Levels, level: nat)
    requires UniqueSequences(EntriesIn(levels)) && level < |levels|
    ensures UniqueSequences(EntriesOf(levels[level]))
  {
    assert EntriesOf(levels[level]) <= EntriesIn(levels);
  }
}
