/** Write batches: a byte string of operations behind a sequence number and a
    count, and replaying one into a memtable. */
module WriteBatches {
  import opened InternalKeys
  import opened Coding

  const HEADER_SIZE: nat := 12

  datatype Operation = Put(key: Bytes, value: Bytes) | Delete(key: Bytes)

  /** An operation as a memtable holds it. */
  datatype Record = Record(sequence: nat, operation: Operation)

  predicate Encodable(op: Operation) {
    |op.key| < WORD32 && (op.Put? ==> |op.value| < WORD32)
  }

  predicate AllEncodable(ops: seq<Operation>) {
    forall i :: 0 <= i < |ops| ==> Encodable(ops[i])
  }

  function EncodeOperation(op: Operation): (r: Bytes)
    requires Encodable(op)
    ensures r != []
  {
    match op
    case Put(key, value) => [1] + PutLengthPrefixed(key) + PutLengthPrefixed(value)
    case Delete(key) => [0] + PutLengthPrefixed(key)
  }

  function EncodeEach(encode: Operation --> Bytes, ops: seq<Operation>): Bytes
    requires forall i :: 0 <= i < |ops| ==> encode.requires(ops[i])
  {
    if ops == [] then [] else encode(ops[0]) + EncodeEach(encode, ops[1..])
  }

  function EncodeOperations(ops: seq<Operation>): Bytes
    requires AllEncodable(ops)
  {
    EncodeEach(EncodeOperation, ops)
  }

  /** The bytes of a batch. */
  function Contents(sequence: Word64, ops: seq<Operation>): Bytes
    requires AllEncodable(ops) && |ops| < WORD32
  {
    EncodeFixed64(sequence) + EncodeFixed32(|ops|) + EncodeOperations(ops)
  }

  // ---------------------------------------------------------------------
  // Iterating
  // ---------------------------------------------------------------------

  function DecodeOperation(b: Bytes): Option<Decoded<Operation>>
    requires b != []
  {
    if b[0] == 1 then
      match GetLengthPrefixed(b[1..])
      case None => None
      case Some(Decoded(key, rest)) =>
        match GetLengthPrefixed(rest)
        case None => None
        case Some(Decoded(value, rest')) => Some(Decoded(Put(key, value), rest'))
    else if b[0] == 0 then
      match GetLengthPrefixed(b[1..])
      case None => None
      case Some(Decoded(key, rest)) => Some(Decoded(Delete(key), rest))
    else None
  }

  /** The operations handed over before the end or an error, and whether there was no error. */
  datatype Iterated = Iterated(ops: seq<Operation>, ok: bool)

  function DecodeOperations(b: Bytes): Iterated
    decreases |b|
  {
    if b == [] then Iterated([], true)
    else
      match DecodeOperation(b)
      case None => Iterated([], false)
      case Some(Decoded(op, rest)) =>
        if |rest| >= |b| then Iterated([], false)
        else
          var r := DecodeOperations(rest);
          Iterated([op] + r.ops, r.ok)
  }

  /** Every operation consumes input, so iteration ends. */
  lemma OperationConsumes(b: Bytes)
    requires b != []
    ensures var r := DecodeOperation(b); r.Some? ==> |r.value.rest| < |b|
  {
    PrefixedConsumes(b[1..]);
    var r := GetLengthPrefixed(b[1..]);
    if r.Some? {
      PrefixedConsumes(r.value.rest);
    }
  }

  lemma OperationRoundTrip(op: Operation, rest: Bytes)
    requires Encodable(op)
    ensures DecodeOperation(EncodeOperation(op) + rest) == Some(Decoded(op, rest))
  {
    match op
    case Put(key, value) =>
      Tagged(1, PutLengthPrefixed(key), PutLengthPrefixed(value), rest);
      LengthPrefixedRoundTrip(key, PutLengthPrefixed(value) + rest);
      LengthPrefixedRoundTrip(value, rest);
    case Delete(key) =>
      Tagged(0, PutLengthPrefixed(key), [], rest);
      LengthPrefixedRoundTrip(key, rest);
  }

  lemma Tagged(tag: Byte, a: Bytes, b: Bytes, rest: Bytes)
    ensures ([tag] + a + b + rest)[0] == tag && ([tag] + a + b + rest)[1..] == a + (b + rest)
    ensures [tag] + a + [] == [tag] + a && [] + rest == rest
  {
    assert [tag] + a + b + rest == [tag] + (a + (b + rest));
  }

  lemma {:induction false} OperationsRoundTrip(ops: seq<Operation>)
    requires AllEncodable(ops)
    ensures DecodeOperations(EncodeOperations(ops)) == Iterated(ops, true)
  {
    if ops != [] {
      OperationsRoundTrip(ops[1..]);
      FirstRoundTrip(ops[0], EncodeOperations(ops[1..]));
    }
  }

  lemma FirstRoundTrip(op: Operation, rest: Bytes)
    requires Encodable(op)
    ensures var r := DecodeOperations(rest);
      DecodeOperations(EncodeOperation(op) + rest) == Iterated([op] + r.ops, r.ok)
  {
    OperationRoundTrip(op, rest);
    DecodeFirst(EncodeOperation(op) + rest, op, rest, EncodeOperation(op));
  }

  lemma DecodeFirst(b: Bytes, op: Operation, rest: Bytes, first: Bytes)
    requires b == first + rest && first != [] && DecodeOperation(b) == Some(Decoded(op, rest))
    ensures var r := DecodeOperations(rest); DecodeOperations(b) == Iterated([op] + r.ops, r.ok)
  {
  }

  lemma {:induction false} EachAppend(encode: Operation --> Bytes, a: seq<Operation>, b: seq<Operation>)
    requires forall i :: 0 <= i < |a| ==> encode.requires(a[i])
    requires forall i :: 0 <= i < |b| ==> encode.requires(b[i])
    ensures EncodeEach(encode, a + b) == EncodeEach(encode, a) + EncodeEach(encode, b)
  {
    if a == [] {
      assert a + b == b;
    } else {
      assert (a + b)[0] == a[0] && (a + b)[1..] == a[1..] + b;
      EachAppend(encode, a[1..], b);
    }
  }

  lemma OneEach(encode: Operation --> Bytes, op: Operation)
    requires encode.requires(op)
    ensures EncodeEach(encode, [op]) == encode(op)
  {
    assert [op][1..] == [];
    assert EncodeEach(encode, []) == [] && encode(op) + [] == encode(op);
  }

  lemma EncodeAppend(a: seq<Operation>, b: seq<Operation>)
    requires AllEncodable(a) && AllEncodable(b)
    ensures AllEncodable(a + b)
    ensures EncodeOperations(a + b) == EncodeOperations(a) + EncodeOperations(b)
  {
    EachAppend(EncodeOperation, a, b);
  }

  /** The records a memtable gets from a batch: consecutive sequence numbers. */
  function Records(first: nat, ops: seq<Operation>): (r: seq<Record>)
    ensures |r| == |ops| && forall i :: 0 <= i < |ops| ==> r[i] == Record(first + i, ops[i])
  {
    seq(|ops|, i requires 0 <= i < |ops| => Record(first + i, ops[i]))
  }

  lemma HeaderFields(sequence: Word64, n: Word32, operations: Bytes)
    ensures var rep := EncodeFixed64(sequence) + EncodeFixed32(n) + operations;
      && |rep| >= HEADER_SIZE
      && DecodeFixed32(rep[8..]) == n && DecodeFixed64(rep) == sequence
      && rep[..8] == EncodeFixed64(sequence) && rep[8..] == EncodeFixed32(n) + operations
      && rep[12..] == operations
  {
    var s, c := EncodeFixed64(sequence), EncodeFixed32(n);
    var rep := s + c + operations;
    assert rep == s + (c + operations) && rep[8..] == c + operations;
    Fixed64RoundTrip(sequence, c + operations);
    Fixed32RoundTrip(n, operations);
  }

  lemma AppendedContents(sequence: Word64, a: seq<Operation>, b: seq<Operation>, rep: Bytes)
    requires AllEncodable(a) && AllEncodable(b) && |a| + |b| < WORD32
    requires rep == EncodeFixed64(sequence) + EncodeFixed32(|a| + |b|) + EncodeOperations(a)
    ensures AllEncodable(a + b) && rep + EncodeOperations(b) == Contents(sequence, a + b)
  {
    EncodeAppend(a, b);
    Regroup(EncodeFixed64(sequence) + EncodeFixed32(|a| + |b|), EncodeOperations(a), EncodeOperations(b));
  }

  lemma EncodeOne(ops: seq<Operation>, op: Operation)
    requires AllEncodable(ops) && Encodable(op)
    ensures AllEncodable(ops + [op])
    ensures EncodeOperations(ops + [op]) == EncodeOperations(ops) + EncodeOperation(op)
  {
    EncodeAppend(ops, [op]);
    OneEach(EncodeOperation, op);
  }

  lemma OneMoreRecord(mem: seq<Record>, first: nat, ops: seq<Operation>, i: nat, mem': seq<Record>)
    requires i < |ops| && mem' == mem + Records(first, ops[..i])
    ensures mem' + [Record(first + i, ops[i])] == mem + Records(first, ops[..i + 1])
  {
  }

  class WriteBatch {
    var rep: Bytes
    ghost var sequence: Word64
    ghost var ops: seq<Operation>

    ghost predicate Valid()
      reads this
    {
      AllEncodable(ops) && |ops| < WORD32 && rep == Contents(sequence, ops)
    }

    constructor ()
      ensures Valid() && ops == [] && sequence == 0
    {
      rep := EncodeFixed64(0) + EncodeFixed32(0);
      sequence, ops := 0, [];
    }

    function Count(): Word32
      requires |rep| >= HEADER_SIZE
      reads this
    {
      DecodeFixed32(rep[8..])
    }

    function Sequence(): Word64
      requires |rep| >= HEADER_SIZE
      reads this
    {
      DecodeFixed64(rep)
    }

    /** The header fields are those of the batch. */
    lemma Header()
      requires Valid()
      ensures |rep| >= HEADER_SIZE && Count() == |ops| && Sequence() == sequence
      ensures rep[12..] == EncodeOperations(ops)
    {
      HeaderFields(sequence, |ops|, EncodeOperations(ops));
    }

    method Clear()
      modifies this
      ensures Valid() && ops == [] && sequence == 0
    {
      rep := EncodeFixed64(0) + EncodeFixed32(0);
      sequence, ops := 0, [];
    }

    method SetSequence(s: Word64)
      requires Valid()
      modifies this
      ensures Valid() && ops == old(ops) && sequence == s
    {
      HeaderFields(sequence, |ops|, EncodeOperations(ops));
      rep := EncodeFixed64(s) + rep[8..];
      sequence := s;
    }

    method Add(op: Operation)
      requires Valid() && Encodable(op) && |ops| + 1 < WORD32
      modifies this
      ensures Valid() && ops == old(ops) + [op] && sequence == old(sequence)
    {
      Header();
      SetCount(Count() + 1);
      EncodeOne(ops, op);
      rep := rep + EncodeOperation(op);
      ops := ops + [op];
      Regroup(EncodeFixed64(sequence) + EncodeFixed32(|ops|), EncodeOperations(old(ops)), EncodeOperation(op));
    }

    method SetCount(n: Word32)
      requires Valid()
      modifies this`rep
      ensures rep == EncodeFixed64(sequence) + EncodeFixed32(n) + EncodeOperations(ops)
    {
      HeaderFields(sequence, |ops|, EncodeOperations(ops));
      rep := rep[..8] + EncodeFixed32(n) + rep[12..];
    }

    /** Appending keeps this batch's sequence number. */
    method Append(source: WriteBatch)
      requires Valid() && source.Valid() && |ops| + |source.ops| < WORD32
      modifies this
      ensures Valid() && ops == old(ops) + old(source.ops) && sequence == old(sequence)
    {
      Header();
      source.Header();
      var more := source.rep[12..];
      SetCount(Count() + source.Count());
      AppendedContents(sequence, ops, old(source.ops), rep);
      rep := rep + more;
      ops := ops + old(source.ops);
    }

    /** Replays the batch: each operation is added under the next sequence number. */
    method InsertInto(mem: seq<Record>) returns (mem': seq<Record>, ok: bool)
      requires Valid()
      ensures ok && mem' == mem + Records(sequence, ops)
    {
      Header();
      OperationsRoundTrip(ops);
      mem', ok := Replay(rep, mem);
    }
  }

  /** The operations `all` are replayed up to `found`, and `input` holds the rest. */
  ghost predicate Replaying(first: nat, all: Iterated, mem: seq<Record>, found: nat, input: Bytes, mem': seq<Record>) {
    && found <= |all.ops|
    && mem' == mem + Records(first, all.ops[..found])
    && DecodeOperations(input) == Iterated(all.ops[found..], all.ok)
  }

  lemma ReplayOne(first: nat, all: Iterated, mem: seq<Record>, found: nat, input: Bytes, mem': seq<Record>)
    requires Replaying(first, all, mem, found, input, mem') && input != []
    ensures var r := DecodeOperation(input);
      if r.None? then found == |all.ops| && !all.ok
      else |r.value.rest| < |input|
           && Replaying(first, all, mem, found + 1, r.value.rest, mem' + [Record(first + found, r.value.value)])
  {
    OperationConsumes(input);
    var r := DecodeOperation(input);
    if r.Some? {
      assert all.ops[found] == r.value.value && all.ops[found..][1..] == all.ops[found + 1..];
      OneMoreRecord(mem, first, all.ops, found, mem');
    }
  }

  lemma AllReplayed(first: nat, all: Iterated, mem: seq<Record>, found: nat, input: Bytes, mem': seq<Record>)
    requires Replaying(first, all, mem, found, input, mem') && found == |all.ops|
    ensures mem' == mem + Records(first, all.ops)
  {
    assert all.ops[..found] == all.ops;
  }

  /** `Iterate` with the memtable inserter, on any bytes. */
  method Replay(rep: Bytes, mem: seq<Record>) returns (mem': seq<Record>, ok: bool)
    ensures |rep| < HEADER_SIZE ==> mem' == mem && !ok
    ensures |rep| >= HEADER_SIZE ==>
      var r := DecodeOperations(rep[12..]);
      mem' == mem + Records(DecodeFixed64(rep), r.ops) && ok == (r.ok && |r.ops| == DecodeFixed32(rep[8..]))
  {
    mem' := mem;
    if |rep| < HEADER_SIZE {
      return mem', false;
    }
    var found, decoded;
    mem', found, decoded := ReplayOperations(DecodeFixed64(rep), rep[12..], mem);
    ok := decoded && found == DecodeFixed32(rep[8..]);
  }

  /** The loop of `Iterate`: how many operations were found, and whether nothing else was. */
  method ReplayOperations(first: nat, operations: Bytes, mem: seq<Record>)
    returns (mem': seq<Record>, found: nat, ok: bool)
    ensures var all := DecodeOperations(operations);
      mem' == mem + Records(first, all.ops) && found == |all.ops| && ok == all.ok
  {
    ghost var all := DecodeOperations(operations);
    var input, sequence := operations, first;
    mem', found := mem, 0;
    while input != []
      invariant sequence == first + found && Replaying(first, all, mem, found, input, mem')
      decreases |input|
    {
      ReplayOne(first, all, mem, found, input, mem');
      var r := DecodeOperation(input);
      if r.None? {
        AllReplayed(first, all, mem, found, input, mem');
        return mem', found, false;
      }
      mem' := mem' + [Record(sequence, r.value.value)];
      found, sequence, input := found + 1, sequence + 1, r.value.rest;
    }
    AllReplayed(first, all, mem, found, input, mem');
    ok := true;
  }
}
