/** A cursor over a plain sequence: the specification that every iterator refines. */
module Cursors {
  import opened InternalKeys

  datatype Op<T> = SeekToFirst | SeekToLast | Seek(target: T) | Next | Prev

  /** `None` is the invalid position. */
  function At(length: nat, p: int): Option<nat> {
    if 0 <= p < length then Some(p) else None
  }

  predicate CanMove<T>(cursor: Option<nat>, op: Op<T>) {
    (op.Next? || op.Prev?) ==> cursor.Some?
  }

  /** How an operation moves a cursor over a sequence of `length` elements, where
      `first` gives the first position at or after a target. */
  function Move<T>(length: nat, first: T -> nat, cursor: Option<nat>, op: Op<T>): Option<nat>
    requires CanMove(cursor, op)
  {
    match op
    case SeekToFirst => At(length, 0)
    case SeekToLast => At(length, length - 1)
    case Seek(target) => At(length, first(target))
    case Next => At(length, cursor.value + 1)
    case Prev => At(length, cursor.value - 1)
  }

  /** Next and Prev only follow a valid position. */
  ghost predicate Legal<T>(length: nat, first: T -> nat, cursor: Option<nat>, ops: seq<Op<T>>)
    decreases |ops|
  {
    ops == []
    || (CanMove(cursor, ops[0]) && Legal(length, first, Move(length, first, cursor, ops[0]), ops[1..]))
  }

  ghost function MoveAll<T>(length: nat, first: T -> nat, cursor: Option<nat>, ops: seq<Op<T>>): Option<nat>
    requires Legal(length, first, cursor, ops)
    decreases |ops|
  {
    if ops == [] then cursor else MoveAll(length, first, Move(length, first, cursor, ops[0]), ops[1..])
  }
}
