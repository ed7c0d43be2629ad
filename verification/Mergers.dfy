/** The merging iterator: n sorted children presented as one sorted sequence,
    walked in both directions. */
module Mergers {
  import opened InternalKeys
  import opened Versions
  import opened Cursors

  // ---------------------------------------------------------------------
  // The merged sequence
  // ---------------------------------------------------------------------

  /** `merged` is the sorted sequence of all entries of all children.  Entry k
      of child i is merged[ranks[i][k]], and `owner` is the inverse of `ranks`. */
  datatype Merge = Merge(merged: seq<Entry>, ranks: seq<seq<nat>>, owner: seq<(nat, nat)>)

  ghost predicate IsMerge(lists: seq<seq<Entry>>, m: Merge) {
    && Sorted(m.merged)
    && |m.ranks| == |lists|
    && |m.owner| == |m.merged|
    && (forall i :: 0 <= i < |lists| ==> |m.ranks[i]| == |lists[i]|)
    && (forall i, k :: 0 <= i < |lists| && 0 <= k < |lists[i]| ==>
          && m.ranks[i][k] < |m.merged|
          && m.merged[m.ranks[i][k]] == lists[i][k]
          && m.owner[m.ranks[i][k]] == (i, k))
    && (forall p :: 0 <= p < |m.merged| ==>
          && m.owner[p].0 < |lists|
          && m.owner[p].1 < |lists[m.owner[p].0]|
          && m.ranks[m.owner[p].0][m.owner[p].1] == p)
  }

  /** No two entries, of one child or of two, compare equal; children are sorted. */
  ghost predicate Mergeable(lists: seq<seq<Entry>>) {
    && (forall i :: 0 <= i < |lists| ==> Sorted(lists[i]))
    && (forall i, j, k, l :: 0 <= i < j < |lists| && 0 <= k < |lists[i]| && 0 <= l < |lists[j]| ==>
          lists[i][k].key != lists[j][l].key)
  }

  /** Ranks order entries exactly as their keys do. */
  lemma RanksFollowKeys(lists: seq<seq<Entry>>, m: Merge, i: nat, k: nat, j: nat, l: nat)
    requires IsMerge(lists, m)
    requires i < |lists| && k < |lists[i]| && j < |lists| && l < |lists[j]|
    ensures m.ranks[i][k] < m.ranks[j][l] <==> Before(lists[i][k].key, lists[j][l].key)
    ensures m.ranks[i][k] == m.ranks[j][l] <==> (i == j && k == l)
  {
  }

  lemma RanksAscend(lists: seq<seq<Entry>>, m: Merge, i: nat)
    requires IsMerge(lists, m) && i < |lists| && Sorted(lists[i])
    ensures forall k, l :: 0 <= k < l < |lists[i]| ==> m.ranks[i][k] < m.ranks[i][l]
  {
    forall k, l | 0 <= k < l < |lists[i]| ensures m.ranks[i][k] < m.ranks[i][l] {
      RanksFollowKeys(lists, m, i, k, i, l);
    }
  }

  function TotalSize(lists: seq<seq<Entry>>): nat {
    if lists == [] then 0 else |lists[0]| + TotalSize(lists[1..])
  }

  lemma {:induction false} TotalSizeDrop(lists: seq<seq<Entry>>, c: nat)
    requires c < |lists| && lists[c] != []
    ensures TotalSize(lists[c := lists[c][..|lists[c]| - 1]]) == TotalSize(lists) - 1
  {
    var shorter := lists[c := lists[c][..|lists[c]| - 1]];
    if c > 0 {
      TotalSizeDrop(lists[1..], c - 1);
      assert shorter[1..] == lists[1..][c - 1 := lists[1..][c - 1][..|lists[1..][c - 1]| - 1]];
    } else {
      assert shorter[1..] == lists[1..];
    }
  }

  lemma {:induction false} TotalSizeZero(lists: seq<seq<Entry>>)
    requires forall i :: 0 <= i < |lists| ==> lists[i] == []
    ensures TotalSize(lists) == 0
  {
    if lists != [] {
      TotalSizeZero(lists[1..]);
    }
  }

  /** The child whose last entry is the largest. */
  lemma LargestLast(lists: seq<seq<Entry>>, n: nat) returns (c: nat)
    requires Mergeable(lists) && n <= |lists|
    ensures c <= n
    ensures c == n ==> forall i :: 0 <= i < n ==> lists[i] == []
    ensures c < n ==> lists[c] != []
    ensures c < n ==> forall i :: 0 <= i < n && i != c && lists[i] != [] ==>
      Before(lists[i][|lists[i]| - 1].key, lists[c][|lists[c]| - 1].key)
  {
    if n == 0 {
      c := 0;
    } else {
      c := LargestLast(lists, n - 1);
      if lists[n - 1] == [] {
        c := if c == n - 1 then n else c;
      } else if c == n - 1 || Before(lists[c][|lists[c]| - 1].key, lists[n - 1][|lists[n - 1]| - 1].key) {
        c := n - 1;
      }
    }
  }

  /** Mergeable children have a merged sequence. */
  lemma {:induction false} MergeExists(lists: seq<seq<Entry>>) returns (m: Merge)
    requires Mergeable(lists)
    ensures IsMerge(lists, m)
    decreases TotalSize(lists)
  {
    var c := LargestLast(lists, |lists|);
    if c == |lists| {
      m := Merge([], seq(|lists|, _ => []), []);
    } else {
      var n := |lists[c]| - 1;
      var rest := lists[c := lists[c][..n]];
      TotalSizeDrop(lists, c);
      RestMergeable(lists, c, rest);
      var m' := MergeExists(rest);
      LastIsLargest(lists, c, rest, m');
      m := AppendLast(lists, c, rest, m');
    }
  }

  lemma RestMergeable(lists: seq<seq<Entry>>, c: nat, rest: seq<seq<Entry>>)
    requires Mergeable(lists) && c < |lists| && lists[c] != []
    requires rest == lists[c := lists[c][..|lists[c]| - 1]]
    ensures Mergeable(rest)
  {
    forall i | 0 <= i < |rest| ensures Sorted(rest[i]) {
      assert Sorted(lists[i]);
    }
  }

  lemma AppendLast(lists: seq<seq<Entry>>, c: nat, rest: seq<seq<Entry>>, m: Merge) returns (r: Merge)
    requires c < |lists| && lists[c] != []
    requires rest == lists[c := lists[c][..|lists[c]| - 1]] && IsMerge(rest, m)
    requires forall p :: 0 <= p < |m.merged| ==> Before(m.merged[p].key, lists[c][|lists[c]| - 1].key)
    ensures IsMerge(lists, r)
  {
    var n, top := |lists[c]| - 1, |m.merged|;
    r := Merge(m.merged + [lists[c][n]], m.ranks[c := m.ranks[c] + [top]], m.owner + [(c, n)]);
    forall i, k | 0 <= i < |lists| && 0 <= k < |lists[i]|
      ensures r.ranks[i][k] < |r.merged| && r.merged[r.ranks[i][k]] == lists[i][k] && r.owner[r.ranks[i][k]] == (i, k)
    {
      if i != c || k != n {
        assert lists[i][k] == rest[i][k] && r.ranks[i][k] == m.ranks[i][k];
        assert m.ranks[i][k] < top;
      }
    }
    forall p | 0 <= p < |r.merged|
      ensures r.owner[p].0 < |lists| && r.owner[p].1 < |lists[r.owner[p].0]|
      ensures r.ranks[r.owner[p].0][r.owner[p].1] == p
    {
      if p < top {
        assert r.owner[p] == m.owner[p];
        assert m.owner[p].1 < |rest[m.owner[p].0]|;
      }
    }
  }

  lemma LastIsLargest(lists: seq<seq<Entry>>, c: nat, rest: seq<seq<Entry>>, m: Merge)
    requires Mergeable(lists) && c < |lists| && lists[c] != []
    requires rest == lists[c := lists[c][..|lists[c]| - 1]] && IsMerge(rest, m)
    requires forall i :: 0 <= i < |lists| && i != c && lists[i] != [] ==>
      Before(lists[i][|lists[i]| - 1].key, lists[c][|lists[c]| - 1].key)
    ensures forall p :: 0 <= p < |m.merged| ==> Before(m.merged[p].key, lists[c][|lists[c]| - 1].key)
  {
    forall p | 0 <= p < |m.merged| ensures Before(m.merged[p].key, lists[c][|lists[c]| - 1].key) {
      var (i, k) := m.owner[p];
      assert m.merged[p] == rest[i][k] == lists[i][k];
      assert Sorted(lists[i]);
      assert k == |lists[i]| - 1 || Before(lists[i][k].key, lists[i][|lists[i]| - 1].key);
    }
  }

  // ---------------------------------------------------------------------
  // The abstract cursor
  // ---------------------------------------------------------------------

  ghost function MoveInMerge(merged: seq<Entry>, cursor: Option<nat>, op: Op<InternalKey>): Option<nat>
    requires CanMove(cursor, op)
  {
    Move(|merged|, FirstIn(merged), cursor, op)
  }

  function FirstIn(merged: seq<Entry>): InternalKey -> nat {
    target => SeekIndex(merged, target)
  }

  // ---------------------------------------------------------------------
  // MergingIterator
  // ---------------------------------------------------------------------

  datatype Direction = Forward | Reverse

  /** Mentioned where a folded predicate is to be looked into. */
  predicate Unfolding(x: int) {
    true
  }

  class MergingIterator {
    /** The children: sorted runs and a position in each; |lists[i]| is invalid. */
    const lists: seq<seq<Entry>>
    var pos: seq<nat>
    var current: Option<nat>
    var direction: Direction
    ghost const m: Merge

    constructor (lists: seq<seq<Entry>>, ghost m: Merge)
      requires Mergeable(lists) && IsMerge(lists, m)
      ensures Valid() && Cursor() == None
      ensures this.lists == lists && this.m == m
    {
      this.lists, this.m := lists, m;
      this.pos := seq(|lists|, i requires 0 <= i < |lists| => |lists[i]|);
      this.current, this.direction := None, Forward;
    }

    ghost predicate Positions()
      reads this`pos
    {
      && Mergeable(lists) && IsMerge(lists, m)
      && |pos| == |lists|
      && (forall i :: 0 <= i < |lists| ==> pos[i] <= |lists[i]|)
    }

    /** Every child but `skip` is at its first entry of rank at least `p`. */
    ghost predicate AllAtOrAfter(p: int, skip: int)
      requires Positions()
      reads this`pos
    {
      forall i, k :: 0 <= i < |lists| && i != skip && 0 <= k < |lists[i]| ==> (k < pos[i] <==> m.ranks[i][k] < p)
    }

    /** Every child but `skip` is at its last entry of rank below `p`, or invalid
        when it has none. */
    ghost predicate AllBefore(p: int, skip: int)
      requires Positions()
      reads this`pos
    {
      forall i :: 0 <= i < |lists| && i != skip ==> ChildBefore(i, pos[i], p)
    }

    ghost predicate ChildBefore(i: int, at: nat, p: int)
      requires IsMerge(lists, m) && 0 <= i < |lists|
    {
      && (at < |lists[i]| ==> m.ranks[i][at] < p)
      && (forall k :: 0 <= k < |lists[i]| && (at == |lists[i]| || k > at) ==> m.ranks[i][k] >= p)
    }

    ghost predicate Valid()
      reads this
    {
      && Positions()
      && (current.Some? ==>
            && current.value < |lists|
            && pos[current.value] < |lists[current.value]|
            && (direction.Forward? ==> AllAtOrAfter(Rank(), current.value))
            && (direction.Reverse? ==> AllBefore(Rank(), current.value)))
    }

    ghost function Rank(): nat
      requires Positions() && current.Some? && current.value < |lists| && pos[current.value] < |lists[current.value]|
      reads this
    {
      m.ranks[current.value][pos[current.value]]
    }

    /** The position in the merged sequence. */
    ghost function Cursor(): Option<nat>
      requires Valid()
      reads this
    {
      if current.Some? then Some(Rank()) else None
    }

    /** The iterator is at position `p` of the merged sequence; |merged| is
        invalid.  Folded, for clients that need not know how. */
    ghost predicate StandsAt(p: nat)
      reads this
    {
      forall x :: Unfolding(x) ==> Valid() && Cursor() == At(|m.merged|, p) && p <= |m.merged|
    }

    method Current() returns (e: Entry)
      requires Valid() && current.Some?
      ensures Cursor().Some? && Cursor().value < |m.merged| && e == m.merged[Cursor().value]
    {
      e := lists[current.value][pos[current.value]];
    }

    method FindSmallest(ghost p: nat)
      requires Positions() && AllAtOrAfter(p, -1)
      modifies this`current, this`direction
      ensures Valid() && direction.Forward?
      ensures Cursor() == At(|m.merged|, p)
    {
      var smallest: Option<nat> := None;
      for i := 0 to |lists|
        invariant smallest.Some? ==> smallest.value < i && pos[smallest.value] < |lists[smallest.value]|
        invariant smallest.None? ==> forall j :: 0 <= j < i ==> pos[j] == |lists[j]|
        invariant smallest.Some? ==> forall j :: 0 <= j < i && pos[j] < |lists[j]| ==>
          m.ranks[smallest.value][pos[smallest.value]] <= m.ranks[j][pos[j]]
      {
        if pos[i] < |lists[i]| {
          if smallest.None? {
            smallest := Some(i);
          } else {
            RanksFollowKeys(lists, m, i, pos[i], smallest.value, pos[smallest.value]);
            if Before(lists[i][pos[i]].key, lists[smallest.value][pos[smallest.value]].key) {
              smallest := Some(i);
            }
          }
        }
      }
      current, direction := smallest, Forward;
      SmallestIsNext(p);
    }

    lemma SmallestIsNext(p: nat)
      requires Positions() && AllAtOrAfter(p, -1)
      requires current.None? ==> forall j :: 0 <= j < |lists| ==> pos[j] == |lists[j]|
      requires current.Some? ==> current.value < |lists| && pos[current.value] < |lists[current.value]|
      requires current.Some? ==> forall j :: 0 <= j < |lists| && pos[j] < |lists[j]| ==> Rank() <= m.ranks[j][pos[j]]
      ensures p < |m.merged| <==> current.Some?
      ensures current.Some? ==> Rank() == p
    {
      if p < |m.merged| {
        var (i, k) := m.owner[p];
        assert k >= pos[i];
        RanksAscend(lists, m, i);
      }
    }

    method FindLargest(ghost p: nat)
      requires Positions() && AllBefore(p, -1) && p <= |m.merged|
      modifies this`current, this`direction
      ensures Valid() && direction.Reverse?
      ensures Cursor() == At(|m.merged|, p - 1)
    {
      var largest: Option<nat> := None;
      var i := |lists|;
      while i > 0
        invariant 0 <= i <= |lists|
        invariant largest.Some? ==> i <= largest.value < |lists| && pos[largest.value] < |lists[largest.value]|
        invariant largest.None? ==> forall j :: i <= j < |lists| ==> pos[j] == |lists[j]|
        invariant largest.Some? ==> forall j :: i <= j < |lists| && pos[j] < |lists[j]| ==>
          m.ranks[largest.value][pos[largest.value]] >= m.ranks[j][pos[j]]
      {
        i := i - 1;
        if pos[i] < |lists[i]| {
          if largest.None? {
            largest := Some(i);
          } else {
            RanksFollowKeys(lists, m, largest.value, pos[largest.value], i, pos[i]);
            if Before(lists[largest.value][pos[largest.value]].key, lists[i][pos[i]].key) {
              largest := Some(i);
            }
          }
        }
      }
      current, direction := largest, Reverse;
      LargestIsPrevious(p);
    }

    lemma LargestIsPrevious(p: nat)
      requires Positions() && AllBefore(p, -1) && p <= |m.merged|
      requires current.None? ==> forall j :: 0 <= j < |lists| ==> pos[j] == |lists[j]|
      requires current.Some? ==> current.value < |lists| && pos[current.value] < |lists[current.value]|
      requires current.Some? ==> forall j :: 0 <= j < |lists| && pos[j] < |lists[j]| ==> Rank() >= m.ranks[j][pos[j]]
      ensures p > 0 <==> current.Some?
      ensures current.Some? ==> Rank() == p - 1 && AllBefore(Rank(), current.value)
    {
      if p > 0 {
        var (i, k) := m.owner[p - 1];
        assert ChildBefore(i, pos[i], p);
        assert pos[i] < |lists[i]| && k <= pos[i];
        RanksAscend(lists, m, i);
      }
      if current.Some? {
        assert ChildBefore(current.value, pos[current.value], p);
        forall j | 0 <= j < |lists| && j != current.value ensures ChildBefore(j, pos[j], Rank()) {
          assert ChildBefore(j, pos[j], p);
        }
      }
    }

    /** Seeking a child to a key lands on its first entry of at least that rank. */
    lemma SeekChild(i: nat, p: nat, key: InternalKey)
      requires Mergeable(lists) && IsMerge(lists, m) && i < |lists| && p <= |m.merged|
      requires forall q :: 0 <= q < |m.merged| ==> (Before(m.merged[q].key, key) <==> q < p)
      ensures forall k :: 0 <= k < |lists[i]| ==> (k < SeekIndex(lists[i], key) <==> m.ranks[i][k] < p)
    {
      assert Sorted(lists[i]);
      forall k | 0 <= k < |lists[i]| ensures k < SeekIndex(lists[i], key) <==> m.ranks[i][k] < p {
        assert lists[i][k] == m.merged[m.ranks[i][k]];
      }
    }

    lemma SplitAtRank(p: nat)
      requires IsMerge(lists, m) && p < |m.merged|
      ensures forall q :: 0 <= q < |m.merged| ==> (Before(m.merged[q].key, m.merged[p].key) <==> q < p)
    {
    }

    method SeekToFirst()
      requires Valid()
      modifies this
      ensures Valid()
      ensures Cursor() == MoveInMerge(m.merged, old(Cursor()), Op.SeekToFirst)
    {
      pos := seq(|lists|, _ => 0);
      FindSmallest(0);
    }

    method SeekToLast()
      requires Valid()
      modifies this
      ensures Valid()
      ensures Cursor() == MoveInMerge(m.merged, old(Cursor()), Op.SeekToLast)
    {
      pos := seq(|lists|, i requires 0 <= i < |lists| => if |lists[i]| == 0 then 0 else |lists[i]| - 1);
      assert AllBefore(|m.merged|, -1);
      FindLargest(|m.merged|);
    }

    method Seek(target: InternalKey)
      requires Valid()
      modifies this
      ensures Valid()
      ensures Cursor() == MoveInMerge(m.merged, old(Cursor()), Op.Seek(target))
    {
      pos := seq(|lists|, i requires 0 <= i < |lists| => SeekIndex(lists[i], target));
      ghost var p := SeekIndex(m.merged, target);
      forall i | 0 <= i < |lists|
        ensures forall k :: 0 <= k < |lists[i]| ==> (k < pos[i] <==> m.ranks[i][k] < p)
      {
        SeekChild(i, p, target);
      }
      FindSmallest(p);
    }

    /** Turning forward: every other child goes to its first entry after the key. */
    method TurnForward()
      requires Valid() && current.Some? && direction.Reverse?
      modifies this`pos, this`direction
      ensures Valid() && direction.Forward? && Cursor() == old(Cursor())
    {
      ghost var p := Rank();
      var c := current.value;
      var key := lists[c][pos[c]].key;
      SplitAtRank(p);
      for i := 0 to |lists|
        invariant Positions() && pos[c] == old(pos[c])
        invariant forall j, k :: 0 <= j < i && j != c && 0 <= k < |lists[j]| ==> (k < pos[j] <==> m.ranks[j][k] < p)
      {
        if i != c {
          var at := SeekIndex(lists[i], key);
          SeekChild(i, p, key);
          if at < |lists[i]| && lists[i][at].key == key {
            at := at + 1;
          }
          pos := pos[i := at];
        }
      }
      direction := Forward;
    }

    /** Turning back: every other child goes to its last entry before the key. */
    method TurnBack()
      requires Valid() && current.Some? && direction.Forward?
      modifies this`pos, this`direction
      ensures Valid() && direction.Reverse? && Cursor() == old(Cursor())
    {
      ghost var p := Rank();
      var c := current.value;
      var key := lists[c][pos[c]].key;
      SplitAtRank(p);
      for i := 0 to |lists|
        invariant Positions() && pos[c] == old(pos[c])
        invariant forall j :: 0 <= j < i && j != c ==> ChildBefore(j, pos[j], p)
      {
        if i != c {
          var at := SeekIndex(lists[i], key);
          SeekChild(i, p, key);
          RanksAscend(lists, m, i);
          if at < |lists[i]| {
            at := if at == 0 then |lists[i]| else at - 1;
          } else {
            at := if |lists[i]| == 0 then 0 else |lists[i]| - 1;
          }
          pos := pos[i := at];
        }
      }
      direction := Reverse;
    }

    /** The current child goes to its next entry. */
    method StepChildForward()
      requires Valid() && current.Some? && direction.Forward?
      modifies this`pos
      ensures Positions() && AllAtOrAfter(old(Rank()) + 1, -1)
    {
      var c := current.value;
      RanksAscend(lists, m, c);
      OthersAreElsewhere(c, pos[c]);
      pos := pos[c := pos[c] + 1];
    }

    /** No entry of another child has the rank of the current one. */
    lemma OthersAreElsewhere(c: nat, k: nat)
      requires IsMerge(lists, m) && c < |lists| && k < |lists[c]|
      ensures forall i, l :: 0 <= i < |lists| && i != c && 0 <= l < |lists[i]| ==> m.ranks[i][l] != m.ranks[c][k]
    {
    }

    method Next()
      requires Valid() && current.Some?
      modifies this
      ensures Valid()
      ensures Cursor() == MoveInMerge(m.merged, old(Cursor()), Op.Next)
    {
      if direction.Reverse? {
        TurnForward();
      }
      ghost var p := Rank();
      StepChildForward();
      FindSmallest(p + 1);
    }

    /** The current child goes to its previous entry. */
    method StepChildBack()
      requires Valid() && current.Some? && direction.Reverse?
      modifies this`pos
      ensures Positions() && AllBefore(old(Rank()), -1)
    {
      ghost var p := Rank();
      var c := current.value;
      RanksAscend(lists, m, c);
      ghost var was := pos;
      pos := pos[c := if pos[c] == 0 then |lists[c]| else pos[c] - 1];
      forall i | 0 <= i < |lists| ensures ChildBefore(i, pos[i], p) {
        assert i != c ==> pos[i] == was[i];
      }
    }

    method Prev()
      requires Valid() && current.Some?
      modifies this
      ensures Valid()
      ensures Cursor() == MoveInMerge(m.merged, old(Cursor()), Op.Prev)
    {
      if direction.Forward? {
        TurnBack();
      }
      ghost var p := Rank();
      StepChildBack();
      FindLargest(p);
    }
  }

  /** Any legal mixture of operations, with any direction changes, moves the
      iterator as it would move a cursor over the merged sequence. */
  method PerformAll(it: MergingIterator, ops: seq<Op<InternalKey>>)
    requires it.Valid()
    requires Legal(|it.m.merged|, FirstIn(it.m.merged), it.Cursor(), ops)
    modifies it
    ensures it.Valid()
    ensures it.Cursor() == MoveAll(|it.m.merged|, FirstIn(it.m.merged), old(it.Cursor()), ops)
  {
    if ops != [] {
      match ops[0] {
        case SeekToFirst => it.SeekToFirst();
        case SeekToLast => it.SeekToLast();
        case Seek(target) => it.Seek(target);
        case Next => it.Next();
        case Prev => it.Prev();
      }
      PerformAll(it, ops[1..]);
    }
  }

  /** Walking forward from the start reads the merged sequence. */
  method ReadAll(lists: seq<seq<Entry>>) returns (r: seq<Entry>)
    requires Mergeable(lists)
    ensures Sorted(r)
    ensures Elements(r) == set i, e | 0 <= i < |lists| && e in lists[i] :: e
  {
    ghost var m := MergeExists(lists);
    var it := new MergingIterator(lists, m);
    it.SeekToFirst();
    r := [];
    while it.current.Some?
      invariant it.Valid() && it.lists == lists && it.m == m
      invariant |r| <= |m.merged| && r == m.merged[..|r|]
      invariant it.Cursor() == At(|m.merged|, |r|)
      decreases |m.merged| - |r|
    {
      var e := it.Current();
      r := r + [e];
      it.Next();
    }
    assert r == m.merged;
    MergedElements(lists, m);
  }

  lemma MergedElements(lists: seq<seq<Entry>>, m: Merge)
    requires IsMerge(lists, m)
    ensures Elements(m.merged) == set i, e | 0 <= i < |lists| && e in lists[i] :: e
  {
    forall e | e in Elements(m.merged) ensures exists i :: 0 <= i < |lists| && e in lists[i] {
      var p :| 0 <= p < |m.merged| && m.merged[p] == e;
      assert lists[m.owner[p].0][m.owner[p].1] == e;
    }
    forall i, e | 0 <= i < |lists| && e in lists[i] ensures e in Elements(m.merged) {
      var k :| 0 <= k < |lists[i]| && lists[i][k] == e;
      assert m.merged[m.ranks[i][k]] == e;
    }
  }
}
