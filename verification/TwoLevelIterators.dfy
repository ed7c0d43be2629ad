/** The iterator over an index of blocks: it walks the concatenation of the
    blocks, opening one at a time and skipping empty ones. */
module TwoLevelIterators {
  import opened InternalKeys
  import opened Cursors
  import opened Blocks
  import opened Tables
  import opened TableReaders

  ghost function MoveInPairs(rank: Rank, pairs: seq<Pair>, cursor: Option<nat>, op: Op<Bytes>): Option<nat>
    requires CanMove(cursor, op)
  {
    Move(|pairs|, FirstIn(rank, pairs), cursor, op)
  }

  /** The children are cursors over the index and over one block, as block
      iterators are; |index| and |block| are their invalid positions. */
  class TwoLevelIterator {
    const rank: Rank
    const index: seq<Pair>
    /** `block_function`: the block that an index value leads to. */
    const open: Bytes -> seq<Pair>

    var indexPos: nat
    var data: Option<seq<Pair>>
    var dataPos: nat
    var dataBlockHandle: Bytes

    ghost const groups: seq<seq<Pair>>

    constructor (rank: Rank, index: seq<Pair>, open: Bytes -> seq<Pair>, ghost groups: seq<seq<Pair>>)
      requires IndexSplits(rank, groups, index, Flatten(groups))
      requires forall i :: 0 <= i < |index| ==> open(index[i].value) == groups[i]
      ensures Valid() && Cursor() == None
      ensures this.groups == groups && this.rank == rank
    {
      this.rank, this.index, this.open, this.groups := rank, index, open, groups;
      this.indexPos, this.data, this.dataPos, this.dataBlockHandle := |index|, None, 0, [];
    }

    ghost predicate Opens()
    {
      && IndexSplits(rank, groups, index, Flatten(groups))
      && forall i :: 0 <= i < |index| ==> open(index[i].value) == groups[i]
    }

    /** The block of the data iterator is the one its handle leads to. */
    ghost predicate HandleOk()
      reads this
    {
      data.Some? ==> data.value == open(dataBlockHandle)
    }

    /** The data iterator is over the block of the current index entry. */
    ghost predicate OnBlock()
      requires |groups| == |index|
      reads this
    {
      && indexPos <= |index|
      && (data.Some? <==> indexPos < |index|)
      && (data.Some? ==> data.value == groups[indexPos] && dataPos <= |data.value|)
    }

    ghost predicate Valid()
      reads this
    {
      && Opens() && HandleOk()
      && (data.Some? ==> OnBlock() && dataPos < |data.value|)
    }

    ghost function Cursor(): Option<nat>
      requires Opens()
      reads this
    {
      if data.Some? && indexPos <= |groups| then Some(Start(groups, indexPos) + dataPos) else None
    }

    predicate IsValid()
      reads this
    {
      data.Some? && dataPos < |data.value|
    }

    method Current() returns (pair: Pair)
      requires Valid() && IsValid()
      ensures Cursor().Some? && Cursor().value < |Flatten(groups)| && pair == Flatten(groups)[Cursor().value]
    {
      FlatAt(groups, indexPos, dataPos);
      pair := data.value[dataPos];
    }

    method InitDataBlock()
      requires Opens() && HandleOk() && indexPos <= |index|
      modifies this`data, this`dataBlockHandle
      ensures HandleOk()
      ensures if indexPos < |index| then data == Some(groups[indexPos]) else data == None
    {
      if indexPos >= |index| {
        data := None;
      } else {
        var handle := index[indexPos].value;
        if data.Some? && handle == dataBlockHandle {
        } else {
          data := Some(open(handle));
          dataBlockHandle := handle;
        }
      }
    }

    /** Where a forward scan continues. */
    ghost function Ahead(): nat
      requires Opens() && OnBlock()
      reads this
    {
      Start(groups, indexPos) + if data.Some? then dataPos else 0
    }

    method SkipEmptyDataBlocksForward()
      requires Opens() && HandleOk() && OnBlock()
      modifies this
      ensures Valid()
      ensures Cursor() == At(|Flatten(groups)|, old(Ahead()))
    {
      while data.None? || dataPos >= |data.value|
        invariant HandleOk() && OnBlock() && Ahead() == old(Ahead())
        decreases |index| - indexPos
      {
        if indexPos >= |index| {
          data := None;
          AllPassed(groups);
          return;
        }
        ToNextBlock();
      }
      FlatAt(groups, indexPos, dataPos);
    }

    method ToNextBlock()
      requires Opens() && HandleOk() && OnBlock() && indexPos < |index| && dataPos == |data.value|
      modifies this
      ensures HandleOk() && OnBlock() && Ahead() == old(Ahead()) && indexPos == old(indexPos) + 1
    {
      StartNext(groups, indexPos);
      indexPos := indexPos + 1;
      InitDataBlock();
      if data.Some? {
        dataPos := 0;
      }
    }

    /** Where a backward scan continues. */
    ghost function Behind(): int
      requires Opens() && OnBlock()
      reads this
    {
      if data.None? then -1
      else if dataPos < |data.value| then Start(groups, indexPos) + dataPos
      else Start(groups, indexPos) - 1
    }

    method SkipEmptyDataBlocksBackward()
      requires Opens() && HandleOk() && OnBlock()
      modifies this
      ensures Valid()
      ensures Cursor() == At(|Flatten(groups)|, old(Behind()))
    {
      while data.None? || dataPos >= |data.value|
        invariant HandleOk() && OnBlock() && Behind() == old(Behind())
        decreases if indexPos < |index| then indexPos + 1 else 0
      {
        if indexPos >= |index| {
          data := None;
          return;
        }
        if indexPos > 0 {
          StartNext(groups, indexPos - 1);
        }
        indexPos := if indexPos == 0 then |index| else indexPos - 1;
        InitDataBlock();
        if data.Some? {
          dataPos := if data.value == [] then 0 else |data.value| - 1;
        }
      }
      FlatAt(groups, indexPos, dataPos);
    }

    method Seek(target: Bytes)
      requires Valid()
      modifies this
      ensures Valid()
      ensures Cursor() == MoveInPairs(rank, Flatten(groups), old(Cursor()), Op.Seek(target))
    {
      SeekInBlocks(target);
      SkipEmptyDataBlocksForward();
    }

    /** The index leads to the block where the target would be. */
    method SeekInBlocks(target: Bytes)
      requires Opens() && HandleOk()
      modifies this
      ensures HandleOk() && OnBlock() && Ahead() == FirstAtLeast(rank, Flatten(groups), target)
    {
      indexPos := FirstAtLeast(rank, index, target);
      InitDataBlock();
      if data.Some? {
        dataPos := FirstAtLeast(rank, data.value, target);
        FirstInGroup(rank, groups, index, Flatten(groups), target, indexPos);
      } else {
        PastAllBlocks(rank, groups, index, Flatten(groups), target);
        AllPassed(groups);
      }
    }

    method SeekToFirst()
      requires Valid()
      modifies this
      ensures Valid()
      ensures Cursor() == MoveInPairs(rank, Flatten(groups), old(Cursor()), Op.SeekToFirst)
    {
      indexPos := 0;
      InitDataBlock();
      if data.Some? {
        dataPos := 0;
      }
      SkipEmptyDataBlocksForward();
    }

    method SeekToLast()
      requires Valid()
      modifies this
      ensures Valid()
      ensures Cursor() == MoveInPairs(rank, Flatten(groups), old(Cursor()), Op.SeekToLast)
    {
      ToLastBlock();
      SkipEmptyDataBlocksBackward();
    }

    method ToLastBlock()
      requires Opens() && HandleOk()
      modifies this
      ensures HandleOk() && OnBlock() && Behind() == |Flatten(groups)| - 1
    {
      AllPassed(groups);
      indexPos := if index == [] then 0 else |index| - 1;
      InitDataBlock();
      if data.Some? {
        dataPos := if data.value == [] then 0 else |data.value| - 1;
        StartNext(groups, indexPos);
      }
    }

    method Next()
      requires Valid() && IsValid()
      modifies this
      ensures Valid()
      ensures Cursor() == MoveInPairs(rank, Flatten(groups), old(Cursor()), Op.Next)
    {
      dataPos := dataPos + 1;
      SkipEmptyDataBlocksForward();
    }

    method Prev()
      requires Valid() && IsValid()
      modifies this
      ensures Valid()
      ensures Cursor() == MoveInPairs(rank, Flatten(groups), old(Cursor()), Op.Prev)
    {
      dataPos := if dataPos == 0 then |data.value| else dataPos - 1;
      SkipEmptyDataBlocksBackward();
    }
  }

  lemma AllPassed(groups: seq<seq<Pair>>)
    ensures Start(groups, |groups|) == |Flatten(groups)|
  {
    assert groups[..|groups|] == groups;
  }

  /** Any legal mixture of operations moves the iterator as it would move a
      cursor over the concatenation of the blocks. */
  method PerformAll(it: TwoLevelIterator, ops: seq<Op<Bytes>>)
    requires it.Valid()
    requires var pairs := Flatten(it.groups); Legal(|pairs|, FirstIn(it.rank, pairs), it.Cursor(), ops)
    modifies it
    ensures it.Valid()
    ensures var pairs := Flatten(it.groups);
      it.Cursor() == MoveAll(|pairs|, FirstIn(it.rank, pairs), old(it.Cursor()), ops)
  {
    if ops != [] {
      match ops[0] {
        case SeekToFirst => it.SeekToFirst();
        case SeekToLast => it.SeekToLast();
        case Seek(target) => it.Seek(target);
        case Next => it.Next();
        case Prev => it.Prev();
      }
      PerformAll(it, ops[1..]);
    }
  }
}
