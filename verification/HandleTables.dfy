/** The hash table of the LRU cache: chained buckets that double in number,
    against a plain map. */
module HandleTables {
  import opened InternalKeys
  import opened Coding

  /** A key with its hash; entries match when both are equal. */
  datatype Name = Name(key: Bytes, hash: Word32)

  /** A cache entry as the table sees it: its name and its address. */
  datatype Item = Item(name: Name, id: nat)

  /** `hash & (length - 1)` for a power of two, bit by bit. */
  function LowBits(hash: nat, length: nat): nat {
    if length <= 1 then 0 else hash % 2 + 2 * LowBits(hash / 2, length / 2)
  }

  predicate PowerOf2(n: nat) {
    n == 1 || (n > 1 && n % 2 == 0 && PowerOf2(n / 2))
  }

  lemma {:induction false} LowBitsInRange(hash: nat, length: nat)
    requires PowerOf2(length)
    ensures LowBits(hash, length) < length
  {
    if length > 1 {
      LowBitsInRange(hash / 2, length / 2);
    }
  }

  function BucketOf(hash: nat, length: nat): (b: nat)
    requires PowerOf2(length)
    ensures b < length
  {
    LowBitsInRange(hash, length);
    LowBits(hash, length)
  }

  /** Position of the entry with this name in a bucket, or its end. */
  function FindIn(bucket: seq<Item>, name: Name): (p: nat)
    ensures p <= |bucket|
    ensures p < |bucket| ==> bucket[p].name == name
    ensures forall i :: 0 <= i < p ==> bucket[i].name != name
  {
    if bucket == [] || bucket[0].name == name then 0
    else
      var p := FindIn(bucket[1..], name);
      assert forall i :: 0 < i <= p ==> bucket[i] == bucket[1..][i - 1];
      p + 1
  }

  predicate DistinctNames(bucket: seq<Item>) {
    forall i, j :: 0 <= i < j < |bucket| ==> bucket[i].name != bucket[j].name
  }

  /** Bucket `b` holds exactly the map's entries that hash there. */
  ghost predicate BucketOk(bucket: seq<Item>, b: nat, length: nat, m: map<Name, nat>)
    requires PowerOf2(length)
  {
    && DistinctNames(bucket)
    && (forall i :: 0 <= i < |bucket| ==>
          BucketOf(bucket[i].name.hash, length) == b && bucket[i].name in m && m[bucket[i].name] == bucket[i].id)
    && (forall n :: n in m && BucketOf(n.hash, length) == b ==> Item(n, m[n]) in bucket)
  }

  ghost predicate Represents(list: seq<seq<Item>>, m: map<Name, nat>) {
    PowerOf2(|list|) && forall b :: 0 <= b < |list| ==> BucketOk(list[b], b, |list|, m)
  }

  /** Looking in the bucket is looking in the map. */
  lemma FindIsLookup(list: seq<seq<Item>>, m: map<Name, nat>, name: Name)
    requires Represents(list, m)
    ensures var bucket := list[BucketOf(name.hash, |list|)];
      var p := FindIn(bucket, name);
      (p < |bucket| <==> name in m) && (p < |bucket| ==> bucket[p] == Item(name, m[name]))
  {
    var b := BucketOf(name.hash, |list|);
    assert BucketOk(list[b], b, |list|, m);
    if name in m {
      var i :| 0 <= i < |list[b]| && list[b][i] == Item(name, m[name]);
    }
  }

  /** The bucket after replacing the entry at `p`, or adding at the end. */
  function PutAt(bucket: seq<Item>, p: nat, item: Item): seq<Item>
    requires p <= |bucket|
  {
    if p < |bucket| then bucket[p := item] else bucket + [item]
  }

  lemma PutRepresents(list: seq<seq<Item>>, m: map<Name, nat>, item: Item)
    requires Represents(list, m)
    ensures var b := BucketOf(item.name.hash, |list|);
      Represents(list[b := PutAt(list[b], FindIn(list[b], item.name), item)], m[item.name := item.id])
  {
    var b := BucketOf(item.name.hash, |list|);
    var list', m' := list[b := PutAt(list[b], FindIn(list[b], item.name), item)], m[item.name := item.id];
    forall c | 0 <= c < |list| ensures BucketOk(list'[c], c, |list|, m') {
      assert BucketOk(list[c], c, |list|, m);
      if c == b {
        PutInBucket(list[b], b, |list|, m, item);
      }
    }
  }

  lemma PutKeeps(bucket: seq<Item>, p: nat, item: Item, other: Item)
    requires p <= |bucket| && other in bucket && (p < |bucket| ==> bucket[p] != other)
    ensures other in PutAt(bucket, p, item)
  {
    var i :| 0 <= i < |bucket| && bucket[i] == other;
    assert PutAt(bucket, p, item)[i] == other;
  }

  lemma PutInBucket(bucket: seq<Item>, b: nat, length: nat, m: map<Name, nat>, item: Item)
    requires PowerOf2(length) && BucketOk(bucket, b, length, m) && BucketOf(item.name.hash, length) == b
    ensures BucketOk(PutAt(bucket, FindIn(bucket, item.name), item), b, length, m[item.name := item.id])
  {
    var p := FindIn(bucket, item.name);
    var bucket', m' := PutAt(bucket, p, item), m[item.name := item.id];
    forall n | n in m' && BucketOf(n.hash, length) == b ensures Item(n, m'[n]) in bucket' {
      if n == item.name {
        assert bucket'[p] == item;
      } else {
        PutKeeps(bucket, p, item, Item(n, m[n]));
      }
    }
  }

  function RemoveAt(bucket: seq<Item>, p: nat): seq<Item>
    requires p <= |bucket|
  {
    if p < |bucket| then bucket[..p] + bucket[p + 1..] else bucket
  }

  lemma RemoveRepresents(list: seq<seq<Item>>, m: map<Name, nat>, name: Name)
    requires Represents(list, m)
    ensures var b := BucketOf(name.hash, |list|);
      Represents(list[b := RemoveAt(list[b], FindIn(list[b], name))], m - {name})
  {
    var b := BucketOf(name.hash, |list|);
    var list' := list[b := RemoveAt(list[b], FindIn(list[b], name))];
    forall c | 0 <= c < |list| ensures BucketOk(list'[c], c, |list|, m - {name}) {
      assert BucketOk(list[c], c, |list|, m);
      if c == b {
        RemoveFromBucket(list[b], b, |list|, m, name);
      }
    }
  }

  lemma Remaining(bucket: seq<Item>, p: nat)
    requires p <= |bucket| && DistinctNames(bucket)
    ensures var r := RemoveAt(bucket, p);
      && DistinctNames(r)
      && (p < |bucket| ==> |r| == |bucket| - 1)
      && (forall i :: 0 <= i < |r| ==> r[i] == bucket[if i < p then i else i + 1])
      && (p < |bucket| ==> forall i :: 0 <= i < |r| ==> r[i].name != bucket[p].name)
  {
    var r := RemoveAt(bucket, p);
    assert forall i :: 0 <= i < |r| ==> r[i] == bucket[if i < p then i else i + 1];
  }

  lemma RemoveKeeps(bucket: seq<Item>, p: nat, other: Item)
    requires p <= |bucket| && other in bucket && (p < |bucket| ==> bucket[p] != other)
    ensures other in RemoveAt(bucket, p)
  {
    var i :| 0 <= i < |bucket| && bucket[i] == other;
    assert RemoveAt(bucket, p)[if i < p then i else i - 1] == other;
  }

  lemma RemoveFromBucket(bucket: seq<Item>, b: nat, length: nat, m: map<Name, nat>, name: Name)
    requires PowerOf2(length) && BucketOk(bucket, b, length, m) && BucketOf(name.hash, length) == b
    ensures BucketOk(RemoveAt(bucket, FindIn(bucket, name)), b, length, m - {name})
  {
    var p := FindIn(bucket, name);
    var bucket', m' := RemoveAt(bucket, p), m - {name};
    Remaining(bucket, p);
    forall n | n in m' && BucketOf(n.hash, length) == b ensures Item(n, m'[n]) in bucket' {
      RemoveKeeps(bucket, p, Item(n, m[n]));
    }
  }

  class HandleTable {
    var list: seq<seq<Item>>
    var elems: nat
    ghost var contents: map<Name, nat>

    ghost predicate Valid()
      reads this
    {
      Represents(list, contents) && elems == |contents.Keys| && elems <= |list| && |list| >= 4
    }

    constructor ()
      ensures Valid() && contents == map[]
    {
      list, elems, contents := [[], [], [], []], 0, map[];
      new;
      assert PowerOf2(2) && PowerOf2(4);
    }

    method Lookup(name: Name) returns (r: Option<nat>)
      requires Valid()
      ensures r == if name in contents then Some(contents[name]) else None
    {
      FindIsLookup(list, contents, name);
      var bucket := list[BucketOf(name.hash, |list|)];
      var p := FindPointer(bucket, name);
      r := if p < |bucket| then Some(bucket[p].id) else None;
    }

    /** Puts the entry in the place of the one with its name, which is returned. */
    method Insert(item: Item) returns (old_: Option<nat>)
      requires Valid()
      modifies this
      ensures Valid() && contents == old(contents)[item.name := item.id]
      ensures if elems <= |old(list)| then |list| == |old(list)| else IsEnough(|list|, elems)
      ensures old_ == if item.name in old(contents) then Some(old(contents)[item.name]) else None
    {
      FindIsLookup(list, contents, item.name);
      PutRepresents(list, contents, item);
      var b := BucketOf(item.name.hash, |list|);
      var p := FindPointer(list[b], item.name);
      old_ := if p < |list[b]| then Some(list[b][p].id) else None;
      PutSize(contents, item.name, item.id);
      list := list[b := PutAt(list[b], p, item)];
      contents := contents[item.name := item.id];
      if old_.None? {
        elems := elems + 1;
        if elems > |list| {
          Resize();
        }
      }
    }

    method Remove(name: Name) returns (r: Option<nat>)
      requires Valid()
      modifies this
      ensures Valid() && contents == old(contents) - {name} && |list| == |old(list)|
      ensures r == if name in old(contents) then Some(old(contents)[name]) else None
    {
      FindIsLookup(list, contents, name);
      RemoveRepresents(list, contents, name);
      var b := BucketOf(name.hash, |list|);
      var p := FindPointer(list[b], name);
      r := None;
      RemoveSize(contents, name);
      if p < |list[b]| {
        r := Some(list[b][p].id);
        list := list[b := RemoveAt(list[b], p)];
        elems := elems - 1;
      } else {
        assert list[b := RemoveAt(list[b], p)] == list;
      }
      contents := contents - {name};
    }

    /** At least four buckets, and as many as entries: every entry moves to the
        front of its new bucket. */
    method Resize()
      requires Represents(list, contents) && elems == |contents.Keys|
      modifies this`list
      ensures Valid() && IsEnough(|list|, elems)
    {
      var newLength := 4;
      assert PowerOf2(2) && PowerOf2(4);
      while newLength < elems
        invariant newLength >= 4 && PowerOf2(newLength) && (newLength == 4 || newLength / 2 < elems)
      {
        newLength := newLength * 2;
      }
      list := Rehash(list, newLength, contents);
    }
  }

  /** The least power of two, from 4 on, that is not below the number of entries. */
  predicate IsEnough(length: nat, elems: nat) {
    PowerOf2(length) && length >= 4 && length >= elems && (length == 4 || length / 2 < elems)
  }

  lemma PutSize(m: map<Name, nat>, name: Name, id: nat)
    ensures |m[name := id]| == if name in m then |m| else |m| + 1
  {
    assert m[name := id].Keys == m.Keys + {name};
    Sizes(m);
    Sizes(m[name := id]);
  }

  lemma RemoveSize(m: map<Name, nat>, name: Name)
    ensures |m - {name}| == if name in m then |m| - 1 else |m|
  {
    assert (m - {name}).Keys == m.Keys - {name};
    Sizes(m);
    Sizes(m - {name});
  }

  lemma Sizes(m: map<Name, nat>)
    ensures |m| == |m.Keys|
  {
  }

  method FindPointer(bucket: seq<Item>, name: Name) returns (p: nat)
    ensures p == FindIn(bucket, name)
  {
    p := 0;
    while p < |bucket| && bucket[p].name != name
      invariant p <= |bucket| && forall i :: 0 <= i < p ==> bucket[i].name != name
    {
      p := p + 1;
    }
  }

  /** The entries of the map in the first `b` buckets and at the first `i`
      places of the next. */
  ghost predicate IsMoved(list: seq<seq<Item>>, m: map<Name, nat>, b: nat, i: nat, moved: map<Name, nat>)
    requires PowerOf2(|list|)
  {
    forall n :: n in moved <==>
      n in m && (BucketOf(n.hash, |list|) < b
                 || (BucketOf(n.hash, |list|) == b < |list| && FindIn(list[b], n) < i))
  }

  lemma MoveOne(list: seq<seq<Item>>, m: map<Name, nat>, b: nat, i: nat, moved: map<Name, nat>, list': seq<seq<Item>>)
    requires Represents(list, m) && b < |list| && i < |list[b]|
    requires IsMoved(list, m, b, i, moved) && (forall n :: n in moved ==> moved[n] == m[n])
    requires Represents(list', moved)
    ensures var item := list[b][i];
      var c := BucketOf(item.name.hash, |list'|);
      && item.name !in moved && item.name in m && m[item.name] == item.id
      && Represents(list'[c := [item] + list'[c]], moved[item.name := item.id])
      && IsMoved(list, m, b, i + 1, moved[item.name := item.id])
  {
    var item := list[b][i];
    assert BucketOk(list[b], b, |list|, m);
    assert FindIn(list[b], item.name) == i;
    PushRepresents(list', moved, item);
    forall n | n in m && BucketOf(n.hash, |list|) == b && FindIn(list[b], n) == i ensures n == item.name {
      assert Item(n, m[n]) in list[b];
    }
  }

  lemma PushRepresents(list: seq<seq<Item>>, m: map<Name, nat>, item: Item)
    requires Represents(list, m) && item.name !in m
    ensures var c := BucketOf(item.name.hash, |list|);
      Represents(list[c := [item] + list[c]], m[item.name := item.id])
  {
    var c := BucketOf(item.name.hash, |list|);
    var list', m' := list[c := [item] + list[c]], m[item.name := item.id];
    forall b | 0 <= b < |list| ensures BucketOk(list'[b], b, |list|, m') {
      assert BucketOk(list[b], b, |list|, m);
    }
  }

  method Rehash(list: seq<seq<Item>>, newLength: nat, ghost m: map<Name, nat>) returns (r: seq<seq<Item>>)
    requires Represents(list, m) && PowerOf2(newLength)
    ensures |r| == newLength && Represents(r, m)
  {
    r := seq(newLength, i => []);
    ghost var moved: map<Name, nat> := map[];
    for b := 0 to |list|
      invariant |r| == newLength && Represents(r, moved)
      invariant IsMoved(list, m, b, 0, moved) && forall n :: n in moved ==> moved[n] == m[n]
    {
      r, moved := MoveBucket(list, m, b, r, moved);
    }
    assert moved == m;
  }

  method MoveBucket(list: seq<seq<Item>>, ghost m: map<Name, nat>, b: nat, r: seq<seq<Item>>,
                    ghost moved: map<Name, nat>)
    returns (r': seq<seq<Item>>, ghost moved': map<Name, nat>)
    requires Represents(list, m) && b < |list| && Represents(r, moved)
    requires IsMoved(list, m, b, 0, moved) && forall n :: n in moved ==> moved[n] == m[n]
    ensures |r'| == |r| && Represents(r', moved')
    ensures IsMoved(list, m, b + 1, 0, moved') && forall n :: n in moved' ==> moved'[n] == m[n]
  {
    r', moved' := r, moved;
    for i := 0 to |list[b]|
      invariant |r'| == |r| && Represents(r', moved')
      invariant IsMoved(list, m, b, i, moved') && forall n :: n in moved' ==> moved'[n] == m[n]
    {
      MoveOne(list, m, b, i, moved', r');
      var item := list[b][i];
      var c := BucketOf(item.name.hash, |r'|);
      r' := r'[c := [item] + r'[c]];
      moved' := moved'[item.name := item.id];
    }
    assert BucketOk(list[b], b, |list|, m);
  }
}
