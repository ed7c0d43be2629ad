/** The user-facing iterator: it walks a sorted run of internal entries, in both
    directions, and shows the user keys whose newest visible entry is a value. */
module DbIterators {
  import opened InternalKeys
  import opened Versions
  import opened Cursors
  import Mergers

  // ---------------------------------------------------------------------
  // The view of a snapshot
  // ---------------------------------------------------------------------

  predicate VisibleAt(es: seq<Entry>, s: SequenceNumber, i: nat)
    requires i < |es|
  {
    es[i].key.sequence <= s
  }

  /** Entry `i` is a value and no newer visible entry of its user key precedes it. */
  predicate Shown(es: seq<Entry>, s: SequenceNumber, i: nat)
    requires i < |es|
  {
    && VisibleAt(es, s, i)
    && es[i].key.kind.TypeValue?
    && forall j :: 0 <= j < i && es[j].key.user == es[i].key.user ==> !VisibleAt(es, s, j)
  }

  /** The indices below `n` that are shown, in order. */
  function ShownBelow(es: seq<Entry>, s: SequenceNumber, n: nat): (r: seq<nat>)
    requires n <= |es|
    ensures forall v :: 0 <= v < |r| ==> r[v] < n && Shown(es, s, r[v])
    ensures forall v, w :: 0 <= v < w < |r| ==> r[v] < r[w]
  {
    if n == 0 then [] else ShownBelow(es, s, n - 1) + (if Shown(es, s, n - 1) then [n - 1] else [])
  }

  datatype Binding = Binding(user: UserKey, value: Bytes)

  /** The snapshot's contents: (user key, value) pairs in key order. */
  function View(es: seq<Entry>, s: SequenceNumber): seq<Binding> {
    var shown := ShownBelow(es, s, |es|);
    seq(|shown|, v requires 0 <= v < |shown| => Binding(es[shown[v]].key.user, es[shown[v]].value))
  }

  /** A shown index `i` is the entry at position |ShownBelow(i)| of the list. */
  lemma {:induction false} ShownPosition(es: seq<Entry>, s: SequenceNumber, i: nat, n: nat)
    requires i < n <= |es| && Shown(es, s, i)
    ensures |ShownBelow(es, s, i)| < |ShownBelow(es, s, n)|
    ensures ShownBelow(es, s, n)[|ShownBelow(es, s, i)|] == i
  {
    if i + 1 < n {
      ShownPosition(es, s, i, n - 1);
    }
  }

  /** Nothing shown in [i, n) adds nothing to the list. */
  lemma {:induction false} NoneShownBetween(es: seq<Entry>, s: SequenceNumber, i: nat, n: nat)
    requires i <= n <= |es|
    requires forall k :: i <= k < n ==> !Shown(es, s, k)
    ensures ShownBelow(es, s, i) == ShownBelow(es, s, n)
  {
    if i < n {
      NoneShownBetween(es, s, i, n - 1);
    }
  }

  /** The view holds exactly the bindings a reader at `s` would find, in key order. */
  lemma ViewIsSnapshot(es: seq<Entry>, s: SequenceNumber)
    requires Sorted(es) && UniqueSequences(Elements(es))
    ensures forall u, v :: Binding(u, v) in View(es, s) <==> Reads(Elements(es), u, s, Some(v))
    ensures forall i, j :: 0 <= i < j < |View(es, s)| ==> View(es, s)[i].user < View(es, s)[j].user
  {
    forall u, v ensures Binding(u, v) in View(es, s) <==> Reads(Elements(es), u, s, Some(v)) {
      if Binding(u, v) in View(es, s) {
        ViewIsRead(es, s, Binding(u, v));
      }
      if Reads(Elements(es), u, s, Some(v)) {
        ReadIsInView(es, s, Binding(u, v));
      }
    }
    ViewAscends(es, s);
  }

  lemma ViewIsRead(es: seq<Entry>, s: SequenceNumber, b: Binding)
    requires Sorted(es) && b in View(es, s)
    ensures Reads(Elements(es), b.user, s, Some(b.value))
  {
    var k :| 0 <= k < |View(es, s)| && View(es, s)[k] == b;
    ShownIsNewest(es, s, ShownBelow(es, s, |es|)[k]);
  }

  lemma ReadIsInView(es: seq<Entry>, s: SequenceNumber, b: Binding)
    requires Sorted(es) && UniqueSequences(Elements(es)) && Reads(Elements(es), b.user, s, Some(b.value))
    ensures b in View(es, s)
  {
    var e :| IsNewest(Elements(es), b.user, s, e) && e.key.kind == TypeValue && e.value == b.value;
    var i :| 0 <= i < |es| && es[i] == e;
    NewestIsShown(es, s, i);
    ShownPosition(es, s, i, |es|);
    assert View(es, s)[|ShownBelow(es, s, i)|] == b;
  }

  lemma ViewAscends(es: seq<Entry>, s: SequenceNumber)
    requires Sorted(es)
    ensures forall i, j :: 0 <= i < j < |View(es, s)| ==> View(es, s)[i].user < View(es, s)[j].user
  {
    var shown := ShownBelow(es, s, |es|);
    forall i, j | 0 <= i < j < |View(es, s)| ensures View(es, s)[i].user < View(es, s)[j].user {
      assert Before(es[shown[i]].key, es[shown[j]].key);
      assert Shown(es, s, shown[j]) && Shown(es, s, shown[i]);
    }
  }

  lemma UsersAscend(es: seq<Entry>)
    requires Sorted(es)
    ensures forall i, j :: 0 <= i <= j < |es| ==> es[i].key.user <= es[j].key.user
  {
    assert forall i, j :: 0 <= i < j < |es| ==> Before(es[i].key, es[j].key);
  }

  lemma ShownIsNewest(es: seq<Entry>, s: SequenceNumber, i: nat)
    requires Sorted(es) && i < |es| && Shown(es, s, i)
    ensures IsNewest(Elements(es), es[i].key.user, s, es[i])
  {
    forall o | o in Elements(es) && Visible(o, es[i].key.user, s) ensures o.key.sequence <= es[i].key.sequence {
      var j :| 0 <= j < |es| && es[j] == o;
      assert !(j < i);
    }
  }

  lemma NewestIsShown(es: seq<Entry>, s: SequenceNumber, i: nat)
    requires Sorted(es) && UniqueSequences(Elements(es)) && i < |es|
    requires IsNewest(Elements(es), es[i].key.user, s, es[i]) && es[i].key.kind.TypeValue?
    ensures Shown(es, s, i)
  {
    forall j | 0 <= j < i && es[j].key.user == es[i].key.user ensures !VisibleAt(es, s, j) {
      assert es[j] in Elements(es) && es[i] in Elements(es);
      assert Before(es[j].key, es[i].key);
    }
  }

  // ---------------------------------------------------------------------
  // The abstract cursor
  // ---------------------------------------------------------------------

  /** The first position at or after `target`. */
  function FirstAtLeast(view: seq<Binding>, target: UserKey): (v: nat)
    ensures v <= |view|
    ensures forall w :: 0 <= w < v ==> view[w].user < target
    ensures v < |view| ==> view[v].user >= target
  {
    if view == [] || view[0].user >= target then 0
    else
      var rest := view[1..];
      assert forall w :: 1 <= w < |view| ==> view[w] == rest[w - 1];
      1 + FirstAtLeast(rest, target)
  }

  lemma FirstAtLeastIsUnique(view: seq<Binding>, target: UserKey, v: nat)
    requires v <= |view| && forall w :: 0 <= w < |view| ==> (view[w].user < target <==> w < v)
    ensures FirstAtLeast(view, target) == v
  {
    var f := FirstAtLeast(view, target);
    if f < |view| {
      assert !(view[f].user < target);
    }
    if v < |view| {
      assert !(view[v].user < target);
    }
  }

  /** The view's own seek. */
  function FirstIn(view: seq<Binding>): UserKey -> nat {
    target => FirstAtLeast(view, target)
  }

  ghost function MoveInView(view: seq<Binding>, cursor: Option<nat>, op: Op<UserKey>): Option<nat>
    requires CanMove(cursor, op)
  {
    Move(|view|, FirstIn(view), cursor, op)
  }

  // ---------------------------------------------------------------------
  // Skipping forward
  // ---------------------------------------------------------------------

  /** Nothing before `start` hides an entry from there on, but entries of the key
      to skip first, if any. */
  ghost predicate FreshFrom(es: seq<Entry>, s: SequenceNumber, start: nat, skip0: Option<UserKey>) {
    && (forall j, k :: 0 <= j < start <= k < |es| && VisibleAt(es, s, j) && es[j].key.user == es[k].key.user ==>
          skip0.Some? && es[k].key.user <= skip0.value)
    && (skip0.Some? ==> forall k :: start <= k < |es| && VisibleAt(es, s, k) ==> skip0.value <= es[k].key.user)
  }

  /** From `start` to `pos` nothing was to be shown, and `skip` is the last key
      to skip: the first, or one that a visible entry was passed of. */
  ghost predicate Skipped(es: seq<Entry>, s: SequenceNumber, start: nat, pos: nat, skip0: Option<UserKey>,
                          skip: Option<UserKey>)
    requires pos <= |es|
  {
    && start <= pos
    && (skip0.Some? ==> skip.Some? && skip0.value <= skip.value)
    && (forall k :: start <= k < pos && Shown(es, s, k) ==> skip0.Some? && es[k].key.user <= skip0.value)
    && (forall k :: start <= k < pos && VisibleAt(es, s, k) ==> skip.Some? && es[k].key.user <= skip.value)
    && (skip.Some? && skip != skip0 ==>
          exists k :: start <= k < pos && VisibleAt(es, s, k) && es[k].key.user == skip.value)
  }

  lemma SkipHidden(es: seq<Entry>, s: SequenceNumber, start: nat, pos: nat, skip0: Option<UserKey>,
                   skip: Option<UserKey>)
    requires pos < |es| && Skipped(es, s, start, pos, skip0, skip) && !VisibleAt(es, s, pos)
    ensures Skipped(es, s, start, pos + 1, skip0, skip)
  {
  }

  lemma SkipOlder(es: seq<Entry>, s: SequenceNumber, start: nat, pos: nat, skip0: Option<UserKey>,
                  skip: Option<UserKey>)
    requires Sorted(es) && pos < |es| && Skipped(es, s, start, pos, skip0, skip)
    requires skip.Some? && es[pos].key.user <= skip.value
    ensures Skipped(es, s, start, pos + 1, skip0, skip)
  {
    UsersAscend(es);
  }

  lemma SkipDeletion(es: seq<Entry>, s: SequenceNumber, start: nat, pos: nat, skip0: Option<UserKey>,
                     skip: Option<UserKey>)
    requires Sorted(es) && pos < |es| && Skipped(es, s, start, pos, skip0, skip) && FreshFrom(es, s, start, skip0)
    requires VisibleAt(es, s, pos) && es[pos].key.kind.TypeDeletion?
    ensures Skipped(es, s, start, pos + 1, skip0, Some(es[pos].key.user))
  {
    UsersAscend(es);
  }

  lemma StopsAtShown(es: seq<Entry>, s: SequenceNumber, start: nat, pos: nat, skip0: Option<UserKey>,
                     skip: Option<UserKey>)
    requires Sorted(es) && pos < |es| && Skipped(es, s, start, pos, skip0, skip) && FreshFrom(es, s, start, skip0)
    requires VisibleAt(es, s, pos) && es[pos].key.kind.TypeValue?
    requires !(skip.Some? && es[pos].key.user <= skip.value)
    ensures Shown(es, s, pos) && (skip0.Some? ==> es[pos].key.user > skip0.value)
  {
    UsersAscend(es);
  }

  // ---------------------------------------------------------------------
  // DBIter
  // ---------------------------------------------------------------------

  datatype Direction = Forward | Reverse

  class DBIter {
    /** The internal iterator: at position `pos` of the sorted run that its
        children merge to; |entries| is invalid. */
    const iter: Mergers.MergingIterator
    ghost const entries: seq<Entry>
    ghost var pos: nat

    const sequence: SequenceNumber
    var savedKey: Option<UserKey>
    var savedValue: Bytes
    var direction: Direction
    var valid: bool

    /** Index of the entry being shown; |entries| when not valid. */
    ghost var at: nat

    constructor (iter: Mergers.MergingIterator, sequence: SequenceNumber)
      requires iter.Valid() && iter.current.None?
      ensures Valid() && Cursor() == None
      ensures this.iter == iter && entries == iter.m.merged && this.sequence == sequence
    {
      this.iter, this.entries, this.sequence := iter, iter.m.merged, sequence;
      this.pos, this.at := |iter.m.merged|, |iter.m.merged|;
      this.savedKey, this.savedValue := None, [];
      this.direction, this.valid := Forward, false;
    }

    /** The internal iterator is where `pos` says. */
    ghost predicate OnRun()
      reads this, iter
    {
      && entries == iter.m.merged && Sorted(entries) && pos <= |entries|
      && iter.StandsAt(pos)
      && (iter.current.Some? <==> pos < |entries|)
    }

    ghost predicate Valid()
      reads this, iter
    {
      && OnRun()
      && valid == (at < |entries|)
      && at <= |entries|
      && (valid ==> Shown(entries, sequence, at))
      && (valid && direction.Forward? ==> pos == at)
      && (valid && direction.Reverse? ==> JustBefore())
    }

    /** Moving backwards, the internal iterator is before the entries of the key
        shown, which is saved; everything in between is too new to be seen. */
    ghost predicate JustBefore()
      requires at < |entries| && pos <= |entries|
      reads this
    {
      && savedKey == Some(entries[at].key.user)
      && savedValue == entries[at].value
      && (pos < |entries| ==> pos < at && entries[pos].key.user < entries[at].key.user)
      && (forall j :: (if pos < |entries| then pos + 1 else 0) <= j < at ==> !VisibleAt(entries, sequence, j))
    }

    // The internal iterator's operations, by position.

    method CurrentEntry() returns (e: Entry)
      requires OnRun() && pos < |entries|
      ensures e == entries[pos]
    {
      assert Mergers.Unfolding(0);
      e := iter.Current();
    }

    method StepForward()
      requires OnRun() && pos < |entries|
      modifies this`pos, iter
      ensures OnRun() && pos == old(pos) + 1
    {
      assert Mergers.Unfolding(0);
      iter.Next();
      pos := pos + 1;
    }

    method StepBack()
      requires OnRun() && pos < |entries|
      modifies this`pos, iter
      ensures OnRun() && pos == if old(pos) == 0 then |entries| else old(pos) - 1
    {
      assert Mergers.Unfolding(0);
      iter.Prev();
      pos := if pos == 0 then |entries| else pos - 1;
    }

    method SeekEntry(key: InternalKey)
      requires OnRun()
      modifies this`pos, iter
      ensures OnRun() && pos == SeekIndex(entries, key)
    {
      assert Mergers.Unfolding(0);
      iter.Seek(key);
      pos := SeekIndex(entries, key);
    }

    method FirstEntry()
      requires OnRun()
      modifies this`pos, iter
      ensures OnRun() && pos == 0
    {
      assert Mergers.Unfolding(0);
      iter.SeekToFirst();
      pos := 0;
    }

    method LastEntry()
      requires OnRun()
      modifies this`pos, iter
      ensures OnRun() && pos == if |entries| == 0 then 0 else |entries| - 1
    {
      assert Mergers.Unfolding(0);
      iter.SeekToLast();
      pos := if |entries| == 0 then 0 else |entries| - 1;
    }

    ghost function Cursor(): Option<nat>
      requires at <= |entries|
      reads this
    {
      if at < |entries| then Some(|ShownBelow(entries, sequence, at)|) else None
    }

    /** The cursor of a valid iterator is a position of the view. */
    lemma CursorInView()
      requires Valid() && valid
      ensures Cursor().Some? && Cursor().value < |View(entries, sequence)|
      ensures View(entries, sequence)[Cursor().value] == Binding(entries[at].key.user, entries[at].value)
    {
      ShownPosition(entries, sequence, at, |entries|);
    }

    method Key() returns (k: UserKey)
      requires Valid() && valid
      ensures Cursor().Some? && Cursor().value < |View(entries, sequence)|
      ensures k == View(entries, sequence)[Cursor().value].user
    {
      CursorInView();
      if direction.Forward? {
        var e := CurrentEntry();
        k := e.key.user;
      } else {
        k := savedKey.value;
      }
    }

    method Value() returns (v: Bytes)
      requires Valid() && valid
      ensures Cursor().Some? && Cursor().value < |View(entries, sequence)|
      ensures v == View(entries, sequence)[Cursor().value].value
    {
      CursorInView();
      if direction.Forward? {
        var e := CurrentEntry();
        v := e.value;
      } else {
        v := savedValue;
      }
    }

    /** Moves forward to the first entry to show, past those of the saved key if
        `skipping0`. */
    method FindNextUserEntry(skipping0: bool)
      requires OnRun() && pos < |entries| && direction.Forward? && (skipping0 ==> savedKey.Some?)
      requires FreshFrom(entries, sequence, pos, if skipping0 then savedKey else None)
      modifies this`pos, this`savedKey, this`valid, this`at, iter
      ensures Valid()
      ensures old(pos) <= at
      ensures at < |entries| && skipping0 ==> entries[at].key.user > old(savedKey).value
      ensures forall k :: old(pos) <= k < at && Shown(entries, sequence, k) ==>
        skipping0 && entries[k].key.user <= old(savedKey).value
    {
      ghost var start := pos;
      ghost var skip0 := if skipping0 then savedKey else None;
      var skip := if skipping0 then savedKey else None;
      while iter.current.Some?
        invariant OnRun() && Skipped(entries, sequence, start, pos, skip0, skip)
        decreases |entries| - pos
      {
        var entry := CurrentEntry();
        if entry.key.sequence <= sequence {
          match entry.key.kind
          case TypeDeletion =>
            SkipDeletion(entries, sequence, start, pos, skip0, skip);
            skip := Some(entry.key.user);
          case TypeValue =>
            if skip.Some? && entry.key.user <= skip.value {
              SkipOlder(entries, sequence, start, pos, skip0, skip);
            } else {
              StopsAtShown(entries, sequence, start, pos, skip0, skip);
              valid, savedKey, at := true, None, pos;
              return;
            }
        } else {
          SkipHidden(entries, sequence, start, pos, skip0, skip);
        }
        StepForward();
      }
      savedKey, valid, at := None, false, |entries|;
    }

    /** The entries passed on the way back from `start`: nothing to show but
        perhaps `c`, which is saved when `valueType` is a value. */
    ghost predicate Passed(start: nat, valueType: ValueType, c: nat)
      requires start < |entries|
      reads this
    {
      var lo := if pos < |entries| then pos + 1 else 0;
      && (valueType.TypeValue? ==>
            && c <= start && VisibleAt(entries, sequence, c) && entries[c].key.kind.TypeValue?
            && savedKey == Some(entries[c].key.user) && savedValue == entries[c].value
            && lo <= c
            && forall j :: lo <= j < c ==> !VisibleAt(entries, sequence, j))
      && forall k :: lo <= k <= start && Shown(entries, sequence, k) ==> valueType.TypeValue? && k == c
    }

    /** One entry further back, unless it shows that the saved one is to be shown. */
    method PassEntry(ghost start: nat, valueType: ValueType, ghost c: nat)
      returns (more: bool, valueType': ValueType, ghost c': nat)
      requires OnRun() && pos <= start < |entries| && Passed(start, valueType, c) && direction.Reverse?
      modifies this`pos, this`savedKey, this`savedValue, iter
      ensures OnRun() && Passed(start, valueType', c')
      ensures more ==> pos <= start && (if old(pos) == 0 then pos == |entries| else pos == old(pos) - 1)
      ensures !more && pos < |entries| ==>
        valueType'.TypeValue? && savedKey.Some? && entries[pos].key.user < savedKey.value
    {
      valueType', c' := valueType, c;
      var entry := CurrentEntry();
      var ikey := entry.key;
      assert forall k :: pos < k <= start ==> Before(ikey, entries[k].key);
      if ikey.sequence <= sequence && valueType.TypeValue? && ikey.user < savedKey.value {
        return false, valueType', c';
      }
      if ikey.sequence <= sequence {
        valueType' := ikey.kind;
        if valueType'.TypeDeletion? {
          savedKey, savedValue := None, [];
        } else {
          savedKey, savedValue := Some(ikey.user), entry.value;
        }
        c' := pos;
      }
      StepBack();
      more := iter.current.Some?;
    }

    /** Moves backwards to the entry to show next before the position on entry. */
    method FindPrevUserEntry()
      requires OnRun() && direction.Reverse?
      requires forall k, j :: 0 <= k <= pos < j < |entries| && entries[k].key.user == entries[j].key.user ==>
        !VisibleAt(entries, sequence, j)
      modifies this, iter
      ensures Valid()
      ensures valid ==> at <= old(pos) < |entries|
      ensures old(pos) < |entries| ==>
        forall k :: (if valid then at + 1 else 0) <= k <= old(pos) ==> !Shown(entries, sequence, k)
    {
      ghost var start := pos;
      var valueType := TypeDeletion;
      ghost var c: nat := 0;
      if iter.current.Some? {
        var more := true;
        while more
          invariant OnRun() && start < |entries| && direction.Reverse? && Passed(start, valueType, c)
          invariant more ==> pos <= start
          invariant !more && pos < |entries| ==>
            valueType.TypeValue? && savedKey.Some? && entries[pos].key.user < savedKey.value
          decreases more, pos
        {
          more, valueType, c := PassEntry(start, valueType, c);
        }
      }
      if valueType.TypeDeletion? {
        valid, savedKey, savedValue, direction, at := false, None, [], Forward, |entries|;
      } else {
        SavedIsShown(start, c);
        valid, at := true, c;
      }
    }

    lemma SavedIsShown(start: nat, c: nat)
      requires OnRun() && pos <= |entries| && start < |entries| && Passed(start, TypeValue, c)
      requires pos < |entries| ==> savedKey.Some? && entries[pos].key.user < savedKey.value
      ensures Shown(entries, sequence, c)
    {
      UsersAscend(entries);
    }

    /** Position bookkeeping: `at` is the first shown index from `from` on. */
    lemma LandsOnNext(from: nat)
      requires Valid() && from <= |entries|
      requires from <= at
      requires forall k :: from <= k < at ==> !Shown(entries, sequence, k)
      ensures Cursor() == At(|View(entries, sequence)|, |ShownBelow(entries, sequence, from)|)
    {
      NoneShownBetween(entries, sequence, from, at);
      if valid {
        ShownPosition(entries, sequence, at, |entries|);
      }
    }

    /** `at` is the last shown index up to `upTo` (exclusive), if there is one. */
    lemma LandsOnPrevious(upTo: nat)
      requires Valid() && upTo <= |entries|
      requires valid ==> at < upTo
      requires forall k :: (if valid then at + 1 else 0) <= k < upTo ==> !Shown(entries, sequence, k)
      ensures Cursor() == At(|View(entries, sequence)|, |ShownBelow(entries, sequence, upTo)| - 1)
    {
      if valid {
        NoneShownBetween(entries, sequence, at + 1, upTo);
        ShownPosition(entries, sequence, at, |entries|);
      } else {
        NoneShownBetween(entries, sequence, 0, upTo);
      }
    }

    /** From at or just before the shown entry, everything visible ahead is at or after its key. */
    lemma NextStarts(was: nat, from: nat)
      requires Sorted(entries) && from <= was < |entries| && Shown(entries, sequence, was)
      requires forall j :: from <= j < was ==> !VisibleAt(entries, sequence, j)
      ensures FreshFrom(entries, sequence, from, Some(entries[was].key.user))
      ensures forall k :: was < k < |entries| && Shown(entries, sequence, k) ==>
        entries[k].key.user > entries[was].key.user
    {
      UsersAscend(entries);
    }

    /** Between the position and the shown entry nothing is visible or only its own key remains. */
    lemma PrevStarts(was: nat, from: nat)
      requires Sorted(entries) && was < |entries| && from <= |entries|
      requires from < |entries| ==> from < was && entries[from].key.user < entries[was].key.user
      requires forall j :: (if from < |entries| then from + 1 else 0) <= j < was ==>
        !VisibleAt(entries, sequence, j) || entries[j].key.user == entries[was].key.user
      ensures forall k, j :: 0 <= k <= from < j < |entries| && entries[k].key.user == entries[j].key.user ==>
        !VisibleAt(entries, sequence, j)
    {
      UsersAscend(entries);
    }

    /** Saves the key to skip and, after moving backwards, steps onto its entries. */
    method TurnForward()
      requires Valid() && valid
      modifies this`direction, this`pos, this`savedKey, iter
      ensures OnRun() && direction.Forward? && pos <= at && savedKey == Some(entries[at].key.user)
      ensures forall j :: pos <= j < at ==> !VisibleAt(entries, sequence, j)
    {
      if direction.Reverse? {
        direction := Forward;
        if iter.current.None? {
          FirstEntry();
        } else {
          StepForward();
        }
      } else {
        var e := CurrentEntry();
        savedKey := Some(e.key.user);
      }
    }

    method Next()
      requires Valid() && valid
      modifies this, iter
      ensures Valid()
      ensures Cursor() == MoveInView(View(entries, sequence), old(Cursor()), Op.Next)
    {
      ghost var was := at;
      TurnForward();
      ShowAfter(was);
    }

    /** Forward from the position, the first one whose key is after that of entry `was`. */
    method ShowAfter(ghost was: nat)
      requires OnRun() && direction.Forward? && was < |entries| && Shown(entries, sequence, was)
      requires pos <= was && savedKey == Some(entries[was].key.user)
      requires forall j :: pos <= j < was ==> !VisibleAt(entries, sequence, j)
      modifies this, iter
      ensures Valid()
      ensures Cursor() == At(|View(entries, sequence)|, |ShownBelow(entries, sequence, was)| + 1)
    {
      NextStarts(was, pos);
      FindNextUserEntry(true);
      LandsOnNext(was + 1);
      assert ShownBelow(entries, sequence, was + 1) == ShownBelow(entries, sequence, was) + [was];
    }

    /** Backs up over the entries of the key shown; false if nothing is before them. */
    method LeaveKey() returns (found: bool)
      requires Valid() && valid && direction.Forward?
      modifies this`pos, this`savedKey, iter
      ensures OnRun() && savedKey == Some(entries[at].key.user)
      ensures found <==> pos < |entries|
      ensures found ==> pos < at && entries[pos].key.user < entries[at].key.user
      ensures forall k :: (if found then pos + 1 else 0) <= k <= at ==> entries[k].key.user == entries[at].key.user
    {
      var e := CurrentEntry();
      savedKey := Some(e.key.user);
      while true
        invariant OnRun() && pos <= at && savedKey == Some(entries[at].key.user)
        invariant forall k :: pos <= k <= at ==> entries[k].key.user == entries[at].key.user
        decreases pos
      {
        assert pos > 0 ==> Before(entries[pos - 1].key, entries[at].key);
        StepBack();
        if iter.current.None? {
          return false;
        }
        e := CurrentEntry();
        if e.key.user < savedKey.value {
          return true;
        }
      }
    }

    method Prev()
      requires Valid() && valid
      modifies this, iter
      ensures Valid()
      ensures Cursor() == MoveInView(View(entries, sequence), old(Cursor()), Op.Prev)
    {
      ghost var was := at;
      if direction.Forward? {
        var found := LeaveKey();
        if !found {
          valid, savedKey, savedValue, at := false, None, [], |entries|;
          LandsOnPrevious(was);
          return;
        }
        direction := Reverse;
      }
      ShowBefore(was);
    }

    /** Backward from the position, the last one whose key is before that of entry `was`. */
    method ShowBefore(ghost was: nat)
      requires OnRun() && direction.Reverse? && was < |entries| && Shown(entries, sequence, was)
      requires pos < |entries| ==> pos < was && entries[pos].key.user < entries[was].key.user
      requires forall j :: (if pos < |entries| then pos + 1 else 0) <= j < was ==>
        !VisibleAt(entries, sequence, j) || entries[j].key.user == entries[was].key.user
      modifies this, iter
      ensures Valid()
      ensures Cursor() == At(|View(entries, sequence)|, |ShownBelow(entries, sequence, was)| - 1)
    {
      PrevStarts(was, pos);
      FindPrevUserEntry();
      LandsOnPrevious(was);
    }

    /** Forward from the position on entry, where a new user key starts. */
    method ShowFrom()
      requires OnRun() && direction.Forward? && FreshFrom(entries, sequence, pos, None)
      modifies this`pos, this`savedKey, this`valid, this`at, iter
      ensures Valid()
      ensures Cursor() == At(|View(entries, sequence)|, |ShownBelow(entries, sequence, old(pos))|)
    {
      ghost var from := pos;
      if iter.current.Some? {
        FindNextUserEntry(false);
      } else {
        valid, at := false, |entries|;
      }
      LandsOnNext(from);
    }

    method Seek(target: UserKey)
      requires Valid()
      modifies this, iter
      ensures Valid()
      ensures Cursor() == MoveInView(View(entries, sequence), old(Cursor()), Op.Seek(target))
    {
      direction, savedValue, savedKey := Forward, [], None;
      SeekTarget(target);
      ShowFrom();
    }

    method SeekTarget(target: UserKey)
      requires OnRun()
      modifies this`pos, iter
      ensures OnRun() && FreshFrom(entries, sequence, pos, None)
      ensures FirstAtLeast(View(entries, sequence), target) == |ShownBelow(entries, sequence, pos)|
    {
      SeekEntry(LookupKey(target, sequence));
      FirstAtLeastIs(target, pos);
    }

    lemma FirstAtLeastIs(target: UserKey, from: nat)
      requires Sorted(entries) && from <= |entries|
      requires forall k :: 0 <= k < from ==> Before(entries[k].key, LookupKey(target, sequence))
      requires forall k :: from <= k < |entries| ==> !Before(entries[k].key, LookupKey(target, sequence))
      ensures FirstAtLeast(View(entries, sequence), target) == |ShownBelow(entries, sequence, from)|
    {
      var view := View(entries, sequence);
      var shown := ShownBelow(entries, sequence, |entries|);
      var v := |ShownBelow(entries, sequence, from)|;
      ShownPrefix(entries, sequence, from, |entries|);
      forall w | 0 <= w < |view| ensures view[w].user < target <==> w < v {
        if w < v {
          assert shown[w] == ShownBelow(entries, sequence, from)[w];
        } else {
          assert shown[w] >= from;
        }
      }
      FirstAtLeastIsUnique(view, target, v);
    }

    method SeekToFirst()
      requires Valid()
      modifies this, iter
      ensures Valid()
      ensures Cursor() == MoveInView(View(entries, sequence), old(Cursor()), Op.SeekToFirst)
    {
      direction, savedValue := Forward, [];
      FirstEntry();
      ShowFrom();
    }

    method SeekToLast()
      requires Valid()
      modifies this, iter
      ensures Valid()
      ensures Cursor() == MoveInView(View(entries, sequence), old(Cursor()), Op.SeekToLast)
    {
      direction, savedValue := Reverse, [];
      LastEntry();
      FindPrevUserEntry();
      LandsOnPrevious(|entries|);
    }
  }

  /** The list of shown indices up to `n` extends the list up to `i` by indices >= i. */
  lemma {:induction false} ShownPrefix(es: seq<Entry>, s: SequenceNumber, i: nat, n: nat)
    requires i <= n <= |es|
    ensures ShownBelow(es, s, i) <= ShownBelow(es, s, n)
    ensures forall w :: |ShownBelow(es, s, i)| <= w < |ShownBelow(es, s, n)| ==> ShownBelow(es, s, n)[w] >= i
  {
    if i < n {
      ShownPrefix(es, s, i, n - 1);
    }
  }

  /** Any legal mixture of operations, with any direction changes, moves the
      iterator as it would move a cursor over the plain view. */
  method PerformAll(it: DBIter, ops: seq<Op<UserKey>>)
    requires it.Valid()
    requires var view := View(it.entries, it.sequence); Legal(|view|, FirstIn(view), it.Cursor(), ops)
    modifies it, it.iter
    ensures it.Valid()
    ensures var view := View(it.entries, it.sequence);
      it.Cursor() == MoveAll(|view|, FirstIn(view), old(it.Cursor()), ops)
  {
    if ops != [] {
      match ops[0] {
        case SeekToFirst => it.SeekToFirst();
        case SeekToLast => it.SeekToLast();
        case Seek(target) => it.Seek(target);
        case Next => it.Next();
        case Prev => it.Prev();
      }
      PerformAll(it, ops[1..]);
    }
  }
}
