/** The write-ahead log: records cut into fragments that never cross a 32 KB
    block, and a reader that survives a writer dying at any byte. */
module Logs {
  import opened InternalKeys
  import opened Coding

  const BLOCK_SIZE: nat := 32768
  const HEADER_SIZE: nat := 7

  const ZERO_TYPE: Byte := 0
  const FULL_TYPE: Byte := 1
  const FIRST_TYPE: Byte := 2
  const MIDDLE_TYPE: Byte := 3
  const LAST_TYPE: Byte := 4
  // What the reader returns besides record types.
  const EOF_TYPE: Byte := 5
  const BAD_RECORD: Byte := 6

  /** The checksum of a record type and payload; any function will do. */
  type Checksum = (Byte, Bytes) -> Word32

  // ---------------------------------------------------------------------
  // The format
  // ---------------------------------------------------------------------

  function RecordType(begin: bool, end: bool): Byte {
    if begin && end then FULL_TYPE else if begin then FIRST_TYPE else if end then LAST_TYPE else MIDDLE_TYPE
  }

  function Header(crc: Checksum, kind: Byte, data: Bytes): (r: Bytes)
    requires |data| <= 0xffff
    ensures |r| == HEADER_SIZE
  {
    EncodeFixed32(Mask(crc(kind, data))) + [|data| % 256, |data| / 256, kind]
  }

  /** The space left for payload at an offset within a block. */
  function Fragment(offset: nat, data: Bytes): nat
    requires offset + HEADER_SIZE <= BLOCK_SIZE
  {
    var avail := BLOCK_SIZE - offset - HEADER_SIZE;
    if |data| < avail then |data| else avail
  }

  /** The bytes of one record written at an offset within a block. */
  function EncodeRecord(crc: Checksum, offset: nat, data: Bytes, begin: bool): Bytes
    requires offset <= BLOCK_SIZE
    decreases |data|,
      if BLOCK_SIZE - offset < HEADER_SIZE then 1 else if BLOCK_SIZE - offset == HEADER_SIZE then 2 else 0
  {
    var leftover := BLOCK_SIZE - offset;
    if leftover < HEADER_SIZE then
      Zeros(leftover) + EncodeRecord(crc, 0, data, begin)
    else
      var n := Fragment(offset, data);
      var end := |data| == n;
      Header(crc, RecordType(begin, end), data[..n]) + data[..n]
      + (if end then [] else EncodeRecord(crc, offset + HEADER_SIZE + n, data[n..], false))
  }

  /** Pieces written one after the other, each encoded for the position it lands on. */
  function Sequence(encode: (nat, Bytes) -> Bytes, off: nat, records: seq<Bytes>): Bytes
    decreases |records|
  {
    if records == [] then []
    else
      var first := encode(off, records[0]);
      first + Sequence(encode, off + |first|, records[1..])
  }

  lemma {:induction false} SequenceAppend(encode: (nat, Bytes) -> Bytes, off: nat, records: seq<Bytes>, last: Bytes)
    ensures var done := Sequence(encode, off, records);
      Sequence(encode, off, records + [last]) == done + encode(off + |done|, last)
    decreases |records|
  {
    var all := records + [last];
    if records == [] {
      assert all[1..] == [];
    } else {
      assert all[1..] == records[1..] + [last];
      var first := encode(off, records[0]);
      SequenceAppend(encode, off + |first|, records[1..], last);
    }
  }

  function Encoder(crc: Checksum): (nat, Bytes) -> Bytes {
    (off: nat, data: Bytes) => EncodeRecord(crc, off % BLOCK_SIZE, data, true)
  }

  /** The bytes of a list of records written from an absolute position on. */
  function EncodeAll(crc: Checksum, off: nat, records: seq<Bytes>): Bytes {
    Sequence(Encoder(crc), off, records)
  }

  // ---------------------------------------------------------------------
  // The writer
  // ---------------------------------------------------------------------

  /** A block offset is that of a position in the file; the end of a block
      counts as the start of the next. */
  predicate AtOffset(position: nat, offset: nat) {
    || (offset < BLOCK_SIZE && position % BLOCK_SIZE == offset)
    || (offset == BLOCK_SIZE && position % BLOCK_SIZE == 0)
  }

  lemma AdvanceOffset(position: nat, offset: nat, n: nat)
    requires AtOffset(position, offset) && offset < BLOCK_SIZE && offset + n <= BLOCK_SIZE
    ensures AtOffset(position + n, offset + n)
  {
    assert position == position / BLOCK_SIZE * BLOCK_SIZE + offset;
    if offset + n == BLOCK_SIZE {
      assert position + n == (position / BLOCK_SIZE + 1) * BLOCK_SIZE;
    } else {
      assert position + n == position / BLOCK_SIZE * BLOCK_SIZE + (offset + n);
    }
  }

  class Writer {
    const crc: Checksum
    var dest: Bytes
    var blockOffset: nat

    ghost predicate Valid()
      reads this
    {
      AtOffset(|dest|, blockOffset)
    }

    /** Appending to a file of any length: a new file, or a log being reused. */
    constructor (crc: Checksum, dest: Bytes)
      ensures Valid() && this.crc == crc && this.dest == dest
    {
      this.crc, this.dest := crc, dest;
      this.blockOffset := |dest| % BLOCK_SIZE;
    }

    method EmitPhysicalRecord(kind: Byte, data: Bytes)
      requires Valid() && blockOffset + HEADER_SIZE + |data| <= BLOCK_SIZE
      modifies this
      ensures Valid()
      ensures dest == old(dest) + Header(crc, kind, data) + data
      ensures blockOffset == old(blockOffset) + HEADER_SIZE + |data|
    {
      var masked := Mask(crc(kind, data));
      AdvanceOffset(|dest|, blockOffset, HEADER_SIZE + |data|);
      dest := dest + (EncodeFixed32(masked) + [|data| % 256, |data| / 256, kind]);
      dest := dest + data;
      blockOffset := blockOffset + HEADER_SIZE + |data|;
    }

    /** Fills a block's last few bytes with zeros when no header fits there. */
    method FillTrailer(ghost left: Bytes, ghost begin: bool)
      requires Valid() && (begin || |left| > 0)
      modifies this
      ensures Valid() && blockOffset + HEADER_SIZE <= BLOCK_SIZE
      ensures blockOffset == if BLOCK_SIZE - old(blockOffset) < HEADER_SIZE then 0 else old(blockOffset)
      ensures dest + Remaining(crc, blockOffset, left, begin)
           == old(dest) + Remaining(crc, old(blockOffset), left, begin)
    {
      var leftover := BLOCK_SIZE - blockOffset;
      if leftover < HEADER_SIZE {
        TrailerStep(crc, blockOffset, left, begin, dest);
        if leftover > 0 {
          AdvanceOffset(|dest|, blockOffset, leftover);
          dest := dest + Zeros(leftover);
        } else {
          assert dest + Zeros(0) == dest;
        }
        blockOffset := 0;
      }
    }

    /** The loop runs at least once, so that an empty record is written too. */
    method AddRecord(data: Bytes)
      requires Valid()
      modifies this
      ensures Valid()
      ensures dest == old(dest) + EncodeRecord(crc, |old(dest)| % BLOCK_SIZE, data, true)
    {
      var left := data;
      var begin := true;
      ghost var goal := dest + EncodeRecord(crc, |dest| % BLOCK_SIZE, data, true);
      BlockEndIsStart(crc, data, true);
      while begin || |left| > 0
        invariant Valid()
        invariant goal == dest + Remaining(crc, blockOffset, left, begin)
        decreases begin, |left|, (if BLOCK_SIZE - blockOffset == HEADER_SIZE then 1 else 0)
      {
        FillTrailer(left, begin);
        var avail := BLOCK_SIZE - blockOffset - HEADER_SIZE;
        var n := if |left| < avail then |left| else avail;
        var end := |left| == n;
        FragmentStep(crc, blockOffset, left, begin, dest);
        EmitPhysicalRecord(RecordType(begin, end), left[..n]);
        left := left[n..];
        begin := false;
      }
      assert goal == dest + [];
    }
  }

  /** What is still to be written inside `AddRecord`'s loop. */
  function Remaining(crc: Checksum, offset: nat, left: Bytes, begin: bool): Bytes
    requires offset <= BLOCK_SIZE
  {
    if begin || |left| > 0 then EncodeRecord(crc, offset, left, begin) else []
  }

  lemma TrailerStep(crc: Checksum, offset: nat, left: Bytes, begin: bool, dest: Bytes)
    requires offset <= BLOCK_SIZE && BLOCK_SIZE - offset < HEADER_SIZE && (begin || |left| > 0)
    ensures dest + Remaining(crc, offset, left, begin)
         == (dest + Zeros(BLOCK_SIZE - offset)) + Remaining(crc, 0, left, begin)
  {
    assert dest + (Zeros(BLOCK_SIZE - offset) + EncodeRecord(crc, 0, left, begin))
        == (dest + Zeros(BLOCK_SIZE - offset)) + EncodeRecord(crc, 0, left, begin);
  }

  lemma FragmentStep(crc: Checksum, offset: nat, left: Bytes, begin: bool, dest: Bytes)
    requires offset + HEADER_SIZE <= BLOCK_SIZE && (begin || |left| > 0)
    ensures var n := Fragment(offset, left);
      dest + Remaining(crc, offset, left, begin)
      == (dest + Header(crc, RecordType(begin, |left| == n), left[..n]) + left[..n])
         + Remaining(crc, offset + HEADER_SIZE + n, left[n..], false)
  {
    var n := Fragment(offset, left);
    var head := Header(crc, RecordType(begin, |left| == n), left[..n]);
    var rest := Remaining(crc, offset + HEADER_SIZE + n, left[n..], false);
    assert EncodeRecord(crc, offset, left, begin) == head + left[..n] + rest;
    assert dest + (head + left[..n] + rest) == (dest + head + left[..n]) + rest;
  }

  /** The end of a block and the start of the next are the same place. */
  lemma BlockEndIsStart(crc: Checksum, data: Bytes, begin: bool)
    ensures EncodeRecord(crc, BLOCK_SIZE, data, begin) == EncodeRecord(crc, 0, data, begin)
  {
    assert Zeros(0) == [];
  }

  lemma OneMoreRecord(crc: Checksum, records: seq<Bytes>, i: nat)
    requires i < |records|
    ensures var done := EncodeAll(crc, 0, records[..i]);
      EncodeAll(crc, 0, records[..i + 1]) == done + EncodeRecord(crc, |done| % BLOCK_SIZE, records[i], true)
  {
    SequenceAppend(Encoder(crc), 0, records[..i], records[i]);
    assert records[..i + 1] == records[..i] + [records[i]];
  }

  /** Writing a list of records, reopening the file anywhere in between. */
  method WriteAll(crc: Checksum, records: seq<Bytes>, reopen: seq<bool>) returns (file: Bytes)
    requires |reopen| == |records|
    ensures file == EncodeAll(crc, 0, records)
  {
    var w := new Writer(crc, []);
    for i := 0 to |records|
      invariant w.Valid() && w.crc == crc && fresh(w)
      invariant w.dest == EncodeAll(crc, 0, records[..i])
    {
      if reopen[i] {
        w := new Writer(crc, w.dest);
      }
      w.AddRecord(records[i]);
      OneMoreRecord(crc, records, i);
    }
    assert records[..|records|] == records;
    file := w.dest;
  }
}
