/** Reading the log back: the reader, and what it returns for a log that was
    cut off at any byte. */
module LogReaders {
  import opened InternalKeys
  import opened Coding
  import opened Logs

  // ---------------------------------------------------------------------
  // The reader as a function of the file and its own state
  // ---------------------------------------------------------------------

  /** The buffer is the last `buffered` bytes before `endOfBuffer`; `dropped` is
      what has been reported to the reporter. */
  datatype ReaderState = ReaderState(buffered: nat, endOfBuffer: nat, eof: bool, dropped: seq<nat>) {
    predicate In(file: Bytes) {
      buffered <= endOfBuffer <= |file|
    }

    function Offset(): nat
      requires buffered <= endOfBuffer
    {
      endOfBuffer - buffered
    }
  }

  const START: ReaderState := ReaderState(0, 0, false, [])

  function Buffer(file: Bytes, st: ReaderState): (r: Bytes)
    requires st.In(file)
    ensures |r| == st.buffered
  {
    file[st.Offset()..st.endOfBuffer]
  }

  function BlockLength(file: Bytes, st: ReaderState): nat
    requires st.In(file)
  {
    if |file| - st.endOfBuffer < BLOCK_SIZE then |file| - st.endOfBuffer else BLOCK_SIZE
  }

  /** Reading the next block; a short read is the end of the file. */
  function Refill(file: Bytes, st: ReaderState): (r: ReaderState)
    requires st.In(file)
    ensures r.In(file)
  {
    var n := BlockLength(file, st);
    ReaderState(n, st.endOfBuffer + n, n < BLOCK_SIZE, st.dropped)
  }

  datatype Physical = Physical(st: ReaderState, kind: Byte, data: Bytes)

  /** Judging a buffer that holds at least a header. */
  function ParseRecord(crc: Checksum, file: Bytes, st: ReaderState): (r: Physical)
    requires st.In(file) && st.buffered >= HEADER_SIZE
    ensures r.st.In(file) && r.st.Offset() >= st.Offset()
    ensures r.kind != EOF_TYPE ==> r.st.Offset() > st.Offset()
  {
    var buffer := Buffer(file, st);
    var length: nat := buffer[4] as int + 256 * buffer[5] as int;
    var kind := buffer[6];
    if HEADER_SIZE + length > |buffer| then
      if !st.eof then Physical(st.(buffered := 0, dropped := st.dropped + [|buffer|]), BAD_RECORD, [])
      else Physical(st.(buffered := 0), EOF_TYPE, [])
    else if kind == ZERO_TYPE && length == 0 then
      Physical(st.(buffered := 0), BAD_RECORD, [])
    else
      var data := buffer[HEADER_SIZE..HEADER_SIZE + length];
      if Unmask(DecodeFixed32(buffer)) != crc(kind, data) then
        Physical(st.(buffered := 0, dropped := st.dropped + [|buffer|]), BAD_RECORD, [])
      else
        Physical(st.(buffered := |buffer| - HEADER_SIZE - length), kind, data)
  }

  /** The next physical record, the end of the file, or a bad record. */
  function ReadPhysicalRecord(crc: Checksum, file: Bytes, st: ReaderState): (r: Physical)
    requires st.In(file)
    ensures r.st.In(file) && r.st.Offset() >= st.Offset()
    ensures r.kind != EOF_TYPE ==> r.st.Offset() > st.Offset()
    decreases |file| - st.endOfBuffer, !st.eof
  {
    if st.buffered >= HEADER_SIZE then ParseRecord(crc, file, st)
    else if !st.eof then ReadPhysicalRecord(crc, file, Refill(file, st))
    else Physical(st.(buffered := 0), EOF_TYPE, [])
  }

  datatype Logical = Logical(st: ReaderState, record: Option<Bytes>)

  function Report(st: ReaderState, bytes: nat): ReaderState {
    st.(dropped := st.dropped + [bytes])
  }

  datatype Progress =
    | Finished(result: Logical)
    | Continue(st: ReaderState, inFragmented: bool, scratch: Bytes)

  /** What `ReadRecord` does with one physical record. */
  function Absorb(p: Physical, inFragmented: bool, scratch: Bytes): Progress {
    if p.kind == FULL_TYPE then
      Finished(Logical(if inFragmented && scratch != [] then Report(p.st, |scratch|) else p.st, Some(p.data)))
    else if p.kind == FIRST_TYPE then
      Continue(if inFragmented && scratch != [] then Report(p.st, |scratch|) else p.st, true, p.data)
    else if p.kind == MIDDLE_TYPE then
      if !inFragmented then Continue(Report(p.st, |p.data|), false, scratch)
      else Continue(p.st, true, scratch + p.data)
    else if p.kind == LAST_TYPE then
      if !inFragmented then Continue(Report(p.st, |p.data|), false, scratch)
      else Finished(Logical(p.st, Some(scratch + p.data)))
    else if p.kind == EOF_TYPE then
      Finished(Logical(p.st, None))
    else if p.kind == BAD_RECORD then
      Continue(if inFragmented then Report(p.st, |scratch|) else p.st, false, [])
    else
      Continue(Report(p.st, |p.data| + if inFragmented then |scratch| else 0), false, [])
  }

  /** A physical record read from `st`: nothing goes back, and only the end of
      the file gives nothing more. */
  predicate Advances(file: Bytes, st: ReaderState, p: Physical)
    requires st.In(file)
  {
    p.st.In(file) && p.st.Offset() >= st.Offset() && (p.kind != EOF_TYPE ==> p.st.Offset() > st.Offset())
  }

  /** The loop of `ReadRecord`, from any point of it. */
  function ReadRecord(crc: Checksum, file: Bytes, st: ReaderState, inFragmented: bool, scratch: Bytes): (r: Logical)
    requires st.In(file)
    ensures r.st.In(file) && r.st.Offset() >= st.Offset()
    ensures r.record.Some? ==> r.st.Offset() > st.Offset()
    decreases |file| - st.Offset(), 1
  {
    ReadOn(crc, file, st, ReadPhysicalRecord(crc, file, st), inFragmented, scratch)
  }

  /** One turn of the loop, with the physical record at hand. */
  function ReadOn(crc: Checksum, file: Bytes, st: ReaderState, p: Physical, inFragmented: bool, scratch: Bytes)
    : (r: Logical)
    requires st.In(file) && Advances(file, st, p)
    ensures r.st.In(file) && r.st.Offset() >= st.Offset()
    ensures r.record.Some? ==> r.st.Offset() > st.Offset()
    decreases |file| - st.Offset(), 0
  {
    match Absorb(p, inFragmented, scratch)
    case Finished(result) => result
    case Continue(st', inFragmented', scratch') => ReadRecord(crc, file, st', inFragmented', scratch')
  }

  lemma AbsorbAdvances(file: Bytes, st: ReaderState, p: Physical, inFragmented: bool, scratch: Bytes)
    requires st.In(file) && Advances(file, st, p)
    ensures var next := Absorb(p, inFragmented, scratch);
      next.Continue? ==> next.st.In(file) && next.st.Offset() > st.Offset()
  {
  }

  lemma ReadRecordStep(crc: Checksum, file: Bytes, st: ReaderState, inFragmented: bool, scratch: Bytes, p: Physical)
    requires st.In(file) && p == ReadPhysicalRecord(crc, file, st)
    ensures var next := Absorb(p, inFragmented, scratch);
      && (next.Finished? ==> ReadRecord(crc, file, st, inFragmented, scratch) == next.result)
      && (next.Continue? ==> next.st.In(file) && next.st.Offset() > st.Offset())
      && (next.Continue? ==> ReadRecord(crc, file, st, inFragmented, scratch)
                             == ReadRecord(crc, file, next.st, next.inFragmented, next.scratch))
  {
    assert ReadRecord(crc, file, st, inFragmented, scratch) == ReadOn(crc, file, st, p, inFragmented, scratch);
    AbsorbAdvances(file, st, p, inFragmented, scratch);
    ReadOnStep(crc, file, st, p, inFragmented, scratch);
  }

  lemma ReadOnStep(crc: Checksum, file: Bytes, st: ReaderState, p: Physical, inFragmented: bool, scratch: Bytes)
    requires st.In(file) && Advances(file, st, p)
    ensures var next := Absorb(p, inFragmented, scratch);
      && (next.Finished? ==> ReadOn(crc, file, st, p, inFragmented, scratch) == next.result)
      && (next.Continue? ==> next.st.In(file))
      && (next.Continue? ==> ReadOn(crc, file, st, p, inFragmented, scratch)
                             == ReadRecord(crc, file, next.st, next.inFragmented, next.scratch))
  {
    AbsorbAdvances(file, st, p, inFragmented, scratch);
  }

  // ---------------------------------------------------------------------
  // The reader as an object
  // ---------------------------------------------------------------------

  class Reader {
    const crc: Checksum
    const file: Bytes
    var buffer: Bytes
    var eof: bool
    var endOfBuffer: nat
    var dropped: seq<nat>

    ghost function State(): ReaderState
      reads this
    {
      ReaderState(|buffer|, endOfBuffer, eof, dropped)
    }

    ghost predicate Valid()
      reads this
    {
      State().In(file) && buffer == Buffer(file, State())
    }

    constructor (crc: Checksum, file: Bytes)
      ensures Valid() && State() == START && this.crc == crc && this.file == file
    {
      this.crc, this.file := crc, file;
      this.buffer, this.eof, this.endOfBuffer, this.dropped := [], false, 0, [];
    }

    method ReadBlock()
      requires Valid()
      modifies this`buffer, this`endOfBuffer, this`eof
      ensures Valid() && |buffer| <= BLOCK_SIZE
      ensures !old(eof) ==> State() == Refill(file, old(State()))
    {
      var n := if |file| - endOfBuffer < BLOCK_SIZE then |file| - endOfBuffer else BLOCK_SIZE;
      buffer := file[endOfBuffer..endOfBuffer + n];
      endOfBuffer := endOfBuffer + n;
      if |buffer| < BLOCK_SIZE {
        eof := true;
      }
    }

    method NextPhysicalRecord() returns (kind: Byte, fragment: Bytes)
      requires Valid()
      modifies this
      ensures Valid()
      ensures Physical(State(), kind, fragment) == ReadPhysicalRecord(crc, file, old(State()))
    {
      ghost var goal := ReadPhysicalRecord(crc, file, State());
      while |buffer| < HEADER_SIZE
        invariant Valid()
        invariant goal == ReadPhysicalRecord(crc, file, State())
        decreases |file| - endOfBuffer, !eof
      {
        if eof {
          buffer := [];
          return EOF_TYPE, [];
        }
        ReadBlock();
      }
      kind, fragment := ParseBuffer();
    }

    method ParseBuffer() returns (kind: Byte, fragment: Bytes)
      requires Valid() && |buffer| >= HEADER_SIZE
      modifies this`buffer, this`dropped
      ensures Valid()
      ensures Physical(State(), kind, fragment) == ParseRecord(crc, file, old(State()))
    {
      var length := buffer[4] as int + 256 * buffer[5] as int;
      kind := buffer[6];
      if HEADER_SIZE + length > |buffer| {
        var dropSize := |buffer|;
        buffer := [];
        if !eof {
          dropped := dropped + [dropSize];
          return BAD_RECORD, [];
        }
        return EOF_TYPE, [];
      }
      if kind == ZERO_TYPE && length == 0 {
        buffer := [];
        return BAD_RECORD, [];
      }
      fragment := buffer[HEADER_SIZE..HEADER_SIZE + length];
      if Unmask(DecodeFixed32(buffer)) != crc(kind, fragment) {
        var dropSize := |buffer|;
        buffer := [];
        dropped := dropped + [dropSize];
        return BAD_RECORD, [];
      }
      buffer := buffer[HEADER_SIZE + length..];
    }

    method NextRecord() returns (record: Option<Bytes>)
      requires Valid()
      modifies this
      ensures Valid()
      ensures Logical(State(), record) == ReadRecord(crc, file, old(State()), false, [])
    {
      var scratch: Bytes := [];
      var inFragmented := false;
      ghost var goal := ReadRecord(crc, file, State(), false, []);
      while true
        invariant Valid()
        invariant goal == ReadRecord(crc, file, State(), inFragmented, scratch)
        decreases |file| - State().Offset()
      {
        ghost var st, inF, sc := State(), inFragmented, scratch;
        var kind, fragment := NextPhysicalRecord();
        var done;
        ReadRecordStep(crc, file, st, inF, sc, Physical(State(), kind, fragment));
        done, record, inFragmented, scratch := AbsorbFragment(kind, fragment, inFragmented, scratch);
        if done {
          return;
        }
      }
    }

    method AbsorbFragment(kind: Byte, fragment: Bytes, inFragmented0: bool, scratch0: Bytes)
      returns (done: bool, record: Option<Bytes>, inFragmented: bool, scratch: Bytes)
      requires Valid()
      modifies this`dropped
      ensures Valid()
      ensures Absorb(Physical(old(State()), kind, fragment), inFragmented0, scratch0)
           == if done then Finished(Logical(State(), record)) else Continue(State(), inFragmented, scratch)
    {
      done, record, inFragmented, scratch := false, None, inFragmented0, scratch0;
      if kind == FULL_TYPE {
        if inFragmented && scratch != [] {
          dropped := dropped + [|scratch|];
        }
        done, record := true, Some(fragment);
      } else if kind == FIRST_TYPE {
        if inFragmented && scratch != [] {
          dropped := dropped + [|scratch|];
        }
        scratch := fragment;
        inFragmented := true;
      } else if kind == MIDDLE_TYPE {
        if !inFragmented {
          dropped := dropped + [|fragment|];
        } else {
          scratch := scratch + fragment;
        }
      } else if kind == LAST_TYPE {
        if !inFragmented {
          dropped := dropped + [|fragment|];
        } else {
          scratch := scratch + fragment;
          done, record := true, Some(scratch);
        }
      } else if kind == EOF_TYPE {
        done := true;
      } else if kind == BAD_RECORD {
        if inFragmented {
          dropped := dropped + [|scratch|];
        }
        inFragmented, scratch := false, [];
      } else {
        dropped := dropped + [|fragment| + if inFragmented then |scratch| else 0];
        inFragmented, scratch := false, [];
      }
    }
  }

  // ---------------------------------------------------------------------
  // Reading what the writer wrote, cut off anywhere
  // ---------------------------------------------------------------------

  /** From `off` on, the file is a prefix of `full`. */
  predicate HoldsPrefix(file: Bytes, off: nat, full: Bytes) {
    && off <= |file|
    && |file| - off <= |full|
    && forall i :: 0 <= i < |file| - off ==> file[off + i] == full[i]
  }

  lemma PrefixSkip(file: Bytes, off: nat, a: Bytes, b: Bytes)
    requires HoldsPrefix(file, off, a + b) && |file| - off >= |a|
    ensures file[off..off + |a|] == a && HoldsPrefix(file, off + |a|, b)
  {
    forall i | 0 <= i < |a| ensures file[off..off + |a|][i] == a[i] {
      assert file[off + i] == (a + b)[i];
    }
    forall i | 0 <= i < |file| - off - |a| ensures file[off + |a| + i] == b[i] {
      assert file[off + (|a| + i)] == (a + b)[|a| + i];
    }
  }

  /** Full reads end on block boundaries; after a short read the rest of the
      file is less than a block and all in the buffer. */
  predicate Aligned(file: Bytes, st: ReaderState) {
    && st.In(file)
    && (!st.eof ==> st.endOfBuffer % BLOCK_SIZE == 0 && st.buffered <= BLOCK_SIZE)
    && (st.eof ==> st.endOfBuffer == |file| && st.buffered <= |file| % BLOCK_SIZE)
  }

  lemma RefillAligned(file: Bytes, st: ReaderState)
    requires Aligned(file, st) && !st.eof
    ensures Aligned(file, Refill(file, st))
  {
    var n := BlockLength(file, st);
    assert st.endOfBuffer == st.endOfBuffer / BLOCK_SIZE * BLOCK_SIZE;
    if n < BLOCK_SIZE {
      assert |file| == st.endOfBuffer / BLOCK_SIZE * BLOCK_SIZE + n;
      assert |file| % BLOCK_SIZE == n;
    } else {
      assert st.endOfBuffer + n == (st.endOfBuffer / BLOCK_SIZE + 1) * BLOCK_SIZE;
    }
  }

  /** Where an aligned reader stands in its block. */
  lemma AlignedOffset(file: Bytes, st: ReaderState)
    requires Aligned(file, st)
    ensures var pos := st.Offset() % BLOCK_SIZE;
      && (!st.eof && 0 < st.buffered ==> BLOCK_SIZE - pos == st.buffered)
      && (!st.eof && st.buffered == 0 ==> pos == 0)
      && (st.eof ==> pos + st.buffered == |file| % BLOCK_SIZE)
  {
    var q, r := st.endOfBuffer / BLOCK_SIZE, st.endOfBuffer % BLOCK_SIZE;
    assert st.endOfBuffer == q * BLOCK_SIZE + r;
    if !st.eof && 0 < st.buffered {
      if st.buffered == BLOCK_SIZE {
        assert st.Offset() == (q - 1) * BLOCK_SIZE;
      } else {
        assert st.Offset() == (q - 1) * BLOCK_SIZE + (BLOCK_SIZE - st.buffered);
      }
    } else if st.eof {
      assert st.Offset() == q * BLOCK_SIZE + (r - st.buffered);
    }
  }

  /** Parsing a buffer that starts with a record of this block. */
  lemma ParseEncoded(crc: Checksum, file: Bytes, st: ReaderState, kind: Byte, data: Bytes, tail: Bytes)
    requires Aligned(file, st) && st.buffered >= HEADER_SIZE
    requires kind != ZERO_TYPE && HEADER_SIZE + |data| <= BLOCK_SIZE - st.Offset() % BLOCK_SIZE
    requires HoldsPrefix(file, st.Offset(), Header(crc, kind, data) + data + tail)
    ensures if |file| - st.Offset() >= HEADER_SIZE + |data|
      then st.buffered >= HEADER_SIZE + |data|
           && ParseRecord(crc, file, st) == Physical(st.(buffered := st.buffered - HEADER_SIZE - |data|), kind, data)
      else ParseRecord(crc, file, st) == Physical(st.(buffered := 0), EOF_TYPE, [])
  {
    AlignedOffset(file, st);
    var off, buffer := st.Offset(), Buffer(file, st);
    var head := Header(crc, kind, data);
    HeaderBytes(file, off, head, data + tail, head + data + tail, buffer);
    assert buffer[..HEADER_SIZE] == head;
    assert buffer[4] == |data| % 256 && buffer[5] == |data| / 256 && buffer[6] == kind;
    assert buffer[4] as int + 256 * buffer[5] as int == |data|;
    if st.buffered >= HEADER_SIZE + |data| {
      PayloadBytes(file, off, head, data, tail, buffer);
      HeaderChecksum(crc, kind, data, buffer);
    }
  }

  lemma PayloadBytes(file: Bytes, off: nat, head: Bytes, data: Bytes, tail: Bytes, buffer: Bytes)
    requires HoldsPrefix(file, off, head + data + tail)
    requires |buffer| <= |file| - off && buffer == file[off..off + |buffer|] && |head| + |data| <= |buffer|
    ensures buffer[|head|..|head| + |data|] == data
  {
    PrefixSkip(file, off, head + data, tail);
    var n := |head| + |data|;
    assert forall i :: 0 <= i < n ==> file[off + i] == file[off..off + n][i] == (head + data)[i];
    assert forall i :: 0 <= i < |data| ==> buffer[|head| + i] == file[off + (|head| + i)] == data[i];
  }

  lemma HeaderBytes(file: Bytes, off: nat, head: Bytes, rest: Bytes, whole: Bytes, buffer: Bytes)
    requires whole == head + rest && HoldsPrefix(file, off, whole)
    requires |buffer| <= |file| - off && buffer == file[off..off + |buffer|] && |head| <= |buffer|
    ensures buffer[..|head|] == head
  {
    PrefixSkip(file, off, head, rest);
  }

  lemma HeaderChecksum(crc: Checksum, kind: Byte, data: Bytes, buffer: Bytes)
    requires |data| <= 0xffff && |buffer| >= HEADER_SIZE
    requires buffer[..HEADER_SIZE] == Header(crc, kind, data)
    ensures Unmask(DecodeFixed32(buffer)) == crc(kind, data)
  {
    var masked := Mask(crc(kind, data));
    assert buffer[..4] == buffer[..HEADER_SIZE][..4] == EncodeFixed32(masked);
    assert buffer == EncodeFixed32(masked) + buffer[4..];
    Fixed32RoundTrip(masked, buffer[4..]);
    UnmaskMask(crc(kind, data));
  }

  /** The zero bytes skipped before a record at an offset within a block. */
  function TrailerLength(pos: nat): nat
    requires pos < BLOCK_SIZE
  {
    if BLOCK_SIZE - pos < HEADER_SIZE then BLOCK_SIZE - pos else 0
  }

  /** A physical record behind `skip` zero bytes has been read, with `rest` still
      to come, or the file ends inside it. */
  ghost predicate PieceRead(file: Bytes, st: ReaderState, skip: nat, kind: Byte, payload: Bytes, rest: Bytes,
                            p: Physical)
    requires st.In(file)
  {
    && p.st.In(file)
    && p.st.dropped == st.dropped
    && if |file| - st.Offset() >= skip + HEADER_SIZE + |payload| then
         && p.kind == kind
         && p.data == payload
         && p.st.Offset() == st.Offset() + skip + HEADER_SIZE + |payload|
         && Aligned(file, p.st)
         && HoldsPrefix(file, p.st.Offset(), rest)
       else
         p.kind == EOF_TYPE
  }

  /** With a header in the buffer there is no trailer to skip. */
  lemma ReadAtHeader(crc: Checksum, file: Bytes, st: ReaderState, kind: Byte, payload: Bytes, rest: Bytes)
    requires Aligned(file, st) && st.buffered >= HEADER_SIZE
    requires kind != ZERO_TYPE && HEADER_SIZE + |payload| <= BLOCK_SIZE - st.Offset() % BLOCK_SIZE
    requires HoldsPrefix(file, st.Offset(), Header(crc, kind, payload) + payload + rest)
    ensures PieceRead(file, st, 0, kind, payload, rest, ReadPhysicalRecord(crc, file, st))
  {
    ParseEncoded(crc, file, st, kind, payload, rest);
    if |file| - st.Offset() >= HEADER_SIZE + |payload| {
      PrefixSkip(file, st.Offset(), Header(crc, kind, payload) + payload, rest);
    }
  }

  /** Reading a physical record, wherever the reader stands. */
  lemma ReadPiece(crc: Checksum, file: Bytes, st: ReaderState, skip: nat, kind: Byte, payload: Bytes, rest: Bytes)
    requires Aligned(file, st) && kind != ZERO_TYPE && skip == TrailerLength(st.Offset() % BLOCK_SIZE)
    requires HEADER_SIZE + |payload| <= BLOCK_SIZE - (if skip > 0 then 0 else st.Offset() % BLOCK_SIZE)
    requires HoldsPrefix(file, st.Offset(), Zeros(skip) + (Header(crc, kind, payload) + payload + rest))
    ensures PieceRead(file, st, skip, kind, payload, rest, ReadPhysicalRecord(crc, file, st))
  {
    AlignedOffset(file, st);
    var piece := Header(crc, kind, payload) + payload + rest;
    if st.buffered >= HEADER_SIZE {
      assert skip == 0 && Zeros(0) + piece == piece;
      ReadAtHeader(crc, file, st, kind, payload, rest);
    } else if !st.eof {
      assert skip == st.buffered;
      ReadAfterRefill(crc, file, st, kind, payload, rest);
    }
  }

  /** With less than a header in the buffer the next block is read first. */
  lemma ReadAfterRefill(crc: Checksum, file: Bytes, st: ReaderState, kind: Byte, payload: Bytes, rest: Bytes)
    requires Aligned(file, st) && st.buffered < HEADER_SIZE && !st.eof
    requires kind != ZERO_TYPE && HEADER_SIZE + |payload| <= BLOCK_SIZE
    requires HoldsPrefix(file, st.Offset(), Zeros(st.buffered) + (Header(crc, kind, payload) + payload + rest))
    ensures PieceRead(file, st, st.buffered, kind, payload, rest, ReadPhysicalRecord(crc, file, st))
  {
    var st' := Refill(file, st);
    RefillAligned(file, st);
    PrefixSkip(file, st.Offset(), Zeros(st.buffered), Header(crc, kind, payload) + payload + rest);
    assert st'.Offset() == st.endOfBuffer;
    assert ReadPhysicalRecord(crc, file, st) == ReadPhysicalRecord(crc, file, st');
    if st'.buffered >= HEADER_SIZE {
      ReadAtHeader(crc, file, st', kind, payload, rest);
    }
  }

  // ---------------------------------------------------------------------
  // The pieces of a record
  // ---------------------------------------------------------------------

  /** The first physical record of a record, and what follows it in the log. */
  datatype Piece = Piece(kind: Byte, payload: Bytes, rest: Bytes)

  /** A record at an offset where a header fits: one piece, and if that is not
      all, the rest at the start of the next block. */
  ghost predicate IsPiece(crc: Checksum, pos: nat, data: Bytes, begin: bool, tail: Bytes, p: Piece)
    requires pos + HEADER_SIZE <= BLOCK_SIZE
  {
    && p.payload <= data && HEADER_SIZE + |p.payload| <= BLOCK_SIZE - pos
    && p.kind == RecordType(begin, |p.payload| == |data|)
    && EncodeRecord(crc, pos, data, begin) + tail == Header(crc, p.kind, p.payload) + p.payload + p.rest
    && if |p.payload| == |data| then p.rest == tail
       else pos + HEADER_SIZE + |p.payload| == BLOCK_SIZE
            && p.rest == EncodeRecord(crc, 0, data[|p.payload|..], false) + tail
  }

  lemma FirstPiece(crc: Checksum, pos: nat, data: Bytes, begin: bool, tail: Bytes) returns (p: Piece)
    requires pos + HEADER_SIZE <= BLOCK_SIZE
    ensures IsPiece(crc, pos, data, begin, tail, p)
  {
    var n := Fragment(pos, data);
    var front := Header(crc, RecordType(begin, |data| == n), data[..n]) + data[..n];
    if |data| == n {
      p := Piece(RecordType(begin, true), data[..n], tail);
      assert (front + []) + tail == front + tail;
    } else {
      BlockEndIsStart(crc, data[n..], false);
      var more := EncodeRecord(crc, 0, data[n..], false);
      p := Piece(RecordType(begin, false), data[..n], more + tail);
      assert (front + more) + tail == front + (more + tail);
    }
  }

  /** Too near the end of a block for a header, a record is a trailer and then a
      record at the start of the next block. */
  lemma TrailerComesFirst(crc: Checksum, offset: nat, data: Bytes, begin: bool, tail: Bytes)
    requires offset < BLOCK_SIZE
    ensures var skip := TrailerLength(offset);
      EncodeRecord(crc, offset, data, begin) + tail
      == Zeros(skip) + (EncodeRecord(crc, if skip > 0 then 0 else offset, data, begin) + tail)
  {
  }

  lemma PieceIsRead(crc: Checksum, file: Bytes, st: ReaderState, skip: nat, pos: nat, data: Bytes, begin: bool,
                    tail: Bytes, p: Piece)
    requires Aligned(file, st) && skip == TrailerLength(st.Offset() % BLOCK_SIZE)
    requires pos == (if skip > 0 then 0 else st.Offset() % BLOCK_SIZE) && IsPiece(crc, pos, data, begin, tail, p)
    requires HoldsPrefix(file, st.Offset(), EncodeRecord(crc, st.Offset() % BLOCK_SIZE, data, begin) + tail)
    ensures PieceRead(file, st, skip, p.kind, p.payload, p.rest, ReadPhysicalRecord(crc, file, st))
  {
    TrailerComesFirst(crc, st.Offset() % BLOCK_SIZE, data, begin, tail);
    ReadPiece(crc, file, st, skip, p.kind, p.payload, p.rest);
  }

  lemma PieceLengths(crc: Checksum, offset: nat, pos: nat, data: Bytes, begin: bool, tail: Bytes, p: Piece)
    requires offset < BLOCK_SIZE && pos == if TrailerLength(offset) > 0 then 0 else offset
    requires IsPiece(crc, pos, data, begin, tail, p)
    ensures |p.rest| >= |tail|
    ensures |EncodeRecord(crc, offset, data, begin)|
         == TrailerLength(offset) + HEADER_SIZE + |p.payload| + (|p.rest| - |tail|)
  {
    TrailerComesFirst(crc, offset, data, begin, tail);
    SameLength(EncodeRecord(crc, offset, data, begin), tail,
               Zeros(TrailerLength(offset)) + (EncodeRecord(crc, pos, data, begin) + tail));
    SameLength(EncodeRecord(crc, pos, data, begin), tail, Header(crc, p.kind, p.payload) + p.payload + p.rest);
  }

  lemma SameLength(a: Bytes, b: Bytes, whole: Bytes)
    requires a + b == whole
    ensures |a| + |b| == |whole|
  {
  }

  /** The whole record has been read, or the file ends inside it. */
  ghost predicate RecordRead(file: Bytes, st: ReaderState, length: nat, whole: Bytes, tail: Bytes, r: Logical)
    requires st.In(file)
  {
    && r.st.In(file)
    && r.st.dropped == st.dropped
    && if |file| - st.Offset() >= length then
         && r.record == Some(whole)
         && r.st.Offset() == st.Offset() + length
         && Aligned(file, r.st)
         && HoldsPrefix(file, r.st.Offset(), tail)
       else
         r.record == None
  }

  lemma {:induction false} ReadEncodedRecord(crc: Checksum, file: Bytes, st: ReaderState, scratch: Bytes,
                                             data: Bytes, begin: bool, tail: Bytes)
    requires Aligned(file, st) && (begin ==> scratch == [])
    requires HoldsPrefix(file, st.Offset(), EncodeRecord(crc, st.Offset() % BLOCK_SIZE, data, begin) + tail)
    ensures RecordRead(file, st, |EncodeRecord(crc, st.Offset() % BLOCK_SIZE, data, begin)|, scratch + data, tail,
                       ReadRecord(crc, file, st, !begin, scratch))
    decreases |file| - st.Offset()
  {
    var offset := st.Offset() % BLOCK_SIZE;
    var skip := TrailerLength(offset);
    var pos := if skip > 0 then 0 else offset;
    var p := FirstPiece(crc, pos, data, begin, tail);
    var q := ReadPhysicalRecord(crc, file, st);
    PieceIsRead(crc, file, st, skip, pos, data, begin, tail, p);
    PieceLengths(crc, offset, pos, data, begin, tail, p);
    ReadRecordStep(crc, file, st, !begin, scratch, q);
    if |p.payload| < |data| && |file| - st.Offset() >= skip + HEADER_SIZE + |p.payload| {
      RestFollows(crc, file, st, skip, pos, data, begin, tail, p, q);
      ReadEncodedRecord(crc, file, q.st, scratch + p.payload, data[|p.payload|..], false, tail);
      Reassembled(scratch, data, p.payload);
      AbsorbFirst(q, scratch, begin);
      JoinPieces(file, st, skip, p, q, scratch + data, tail, |p.rest| - |tail|,
                 ReadRecord(crc, file, q.st, true, scratch + p.payload));
    } else {
      LastPiece(file, st, skip, p, q, scratch, data, begin, tail, |p.rest| - |tail|);
    }
  }

  /** An unfinished piece fills its block, so the rest is at the start of one. */
  lemma RestFollows(crc: Checksum, file: Bytes, st: ReaderState, skip: nat, pos: nat, data: Bytes, begin: bool,
                    tail: Bytes, p: Piece, q: Physical)
    requires st.In(file) && skip == TrailerLength(st.Offset() % BLOCK_SIZE)
    requires pos == (if skip > 0 then 0 else st.Offset() % BLOCK_SIZE) && IsPiece(crc, pos, data, begin, tail, p)
    requires PieceRead(file, st, skip, p.kind, p.payload, p.rest, q)
    requires |p.payload| < |data| && |file| - st.Offset() >= skip + HEADER_SIZE + |p.payload|
    ensures Aligned(file, q.st) && q.st.Offset() % BLOCK_SIZE == 0 && q.st.Offset() > st.Offset()
    ensures HoldsPrefix(file, q.st.Offset(), EncodeRecord(crc, 0, data[|p.payload|..], false) + tail)
    ensures |EncodeRecord(crc, 0, data[|p.payload|..], false)| == |p.rest| - |tail|
  {
    NextPieceOffset(st.Offset(), skip, pos, |p.payload|);
    SameLength(EncodeRecord(crc, 0, data[|p.payload|..], false), tail, p.rest);
  }

  lemma NextPieceOffset(off: nat, skip: nat, pos: nat, n: nat)
    requires skip == TrailerLength(off % BLOCK_SIZE)
    requires pos == (if skip > 0 then 0 else off % BLOCK_SIZE) && pos + HEADER_SIZE + n == BLOCK_SIZE
    ensures (off + skip + HEADER_SIZE + n) % BLOCK_SIZE == 0
  {
    if skip > 0 {
      AdvanceOffset(off, off % BLOCK_SIZE, skip);
      AdvanceOffset(off + skip, 0, HEADER_SIZE + n);
    } else {
      AdvanceOffset(off, pos, HEADER_SIZE + n);
    }
  }

  lemma Reassembled(scratch: Bytes, data: Bytes, payload: Bytes)
    requires payload <= data
    ensures (scratch + payload) + data[|payload|..] == scratch + data
  {
  }

  /** A first or middle piece is put behind what has been collected. */
  lemma AbsorbFirst(q: Physical, scratch: Bytes, begin: bool)
    requires q.kind == RecordType(begin, false) && (begin ==> scratch == [])
    ensures Absorb(q, !begin, scratch) == Continue(q.st, true, scratch + q.data)
  {
    assert begin ==> scratch + q.data == q.data;
  }

  /** A piece followed by the rest of its record. */
  lemma JoinPieces(file: Bytes, st: ReaderState, skip: nat, p: Piece, q: Physical, whole: Bytes, tail: Bytes,
                   length: nat, r: Logical)
    requires st.In(file) && PieceRead(file, st, skip, p.kind, p.payload, p.rest, q)
    requires |file| - st.Offset() >= skip + HEADER_SIZE + |p.payload|
    requires RecordRead(file, q.st, length, whole, tail, r)
    ensures RecordRead(file, st, skip + HEADER_SIZE + |p.payload| + length, whole, tail, r)
  {
  }

  /** The last piece of a record, or one the file ends in. */
  lemma LastPiece(file: Bytes, st: ReaderState, skip: nat, p: Piece, q: Physical, scratch: Bytes, data: Bytes,
                  begin: bool, tail: Bytes, length: nat)
    requires st.In(file) && (begin ==> scratch == [])
    requires PieceRead(file, st, skip, p.kind, p.payload, p.rest, q)
    requires |file| - st.Offset() >= skip + HEADER_SIZE + |p.payload| ==>
      p.kind == RecordType(begin, true) && p.payload == data && p.rest == tail && length == 0
    ensures Absorb(q, !begin, scratch).Finished?
    ensures RecordRead(file, st, skip + HEADER_SIZE + |p.payload| + length, scratch + data, tail,
                       Absorb(q, !begin, scratch).result)
  {
    assert begin ==> scratch + data == data;
  }

  lemma ReadAtEnd(crc: Checksum, file: Bytes, st: ReaderState)
    requires Aligned(file, st) && st.Offset() == |file|
    ensures var r := ReadRecord(crc, file, st, false, []); r.record == None && r.st.dropped == st.dropped
  {
    var st' := Refill(file, st);
    ReadRecordStep(crc, file, st, false, [], ReadPhysicalRecord(crc, file, st));
    if !st.eof {
      assert ReadPhysicalRecord(crc, file, st) == ReadPhysicalRecord(crc, file, st');
    }
  }

  /** The first `i` records have been read from a prefix of what was written. */
  ghost predicate ReadUpTo(crc: Checksum, file: Bytes, written: seq<Bytes>, i: nat, st: ReaderState) {
    && i <= |written|
    && Aligned(file, st)
    && st.dropped == []
    && st.Offset() == |EncodeAll(crc, 0, written[..i])|
    && HoldsPrefix(file, st.Offset(), EncodeAll(crc, st.Offset(), written[i..]))
  }

  lemma ReadNext(crc: Checksum, file: Bytes, written: seq<Bytes>, i: nat, st: ReaderState, r: Logical)
    requires ReadUpTo(crc, file, written, i, st) && r == ReadRecord(crc, file, st, false, [])
    ensures r.st.dropped == []
    ensures if i < |written| && |EncodeAll(crc, 0, written[..i + 1])| <= |file|
      then r.record == Some(written[i]) && ReadUpTo(crc, file, written, i + 1, r.st)
      else r.record == None
  {
    if i == |written| {
      assert written[i..] == [];
      ReadAtEnd(crc, file, st);
    } else {
      var tail := NextInLog(crc, written, i);
      NextIsRead(crc, file, written[i], st, tail);
    }
  }

  lemma NextIsRead(crc: Checksum, file: Bytes, data: Bytes, st: ReaderState, tail: Bytes)
    requires Aligned(file, st)
    requires HoldsPrefix(file, st.Offset(), EncodeRecord(crc, st.Offset() % BLOCK_SIZE, data, true) + tail)
    ensures RecordRead(file, st, |EncodeRecord(crc, st.Offset() % BLOCK_SIZE, data, true)|, data, tail,
                       ReadRecord(crc, file, st, false, []))
  {
    assert [] + data == data;
    ReadEncodedRecord(crc, file, st, [], data, true, tail);
  }

  lemma NextInLog(crc: Checksum, written: seq<Bytes>, i: nat) returns (tail: Bytes)
    requires i < |written|
    ensures var off := |EncodeAll(crc, 0, written[..i])|;
      var enc := EncodeRecord(crc, off % BLOCK_SIZE, written[i], true);
      && EncodeAll(crc, off, written[i..]) == enc + tail
      && |EncodeAll(crc, 0, written[..i + 1])| == off + |enc|
      && tail == EncodeAll(crc, off + |enc|, written[i + 1..])
  {
    var off := |EncodeAll(crc, 0, written[..i])|;
    tail := EncodeAll(crc, off + |Encoder(crc)(off, written[i])|, written[i + 1..]);
    FirstOfRest(crc, off, written, i);
    assert written[..i + 1] == written[..i] + [written[i]];
    SequenceAppend(Encoder(crc), 0, written[..i], written[i]);
  }

  lemma FirstOfRest(crc: Checksum, off: nat, written: seq<Bytes>, i: nat)
    requires i < |written|
    ensures var enc := Encoder(crc)(off, written[i]);
      EncodeAll(crc, off, written[i..]) == enc + EncodeAll(crc, off + |enc|, written[i + 1..])
  {
    assert written[i..][1..] == written[i + 1..];
  }

  /** What reading a prefix of a log must return. */
  ghost predicate IsRecovered(crc: Checksum, file: Bytes, written: seq<Bytes>, records: seq<Bytes>) {
    && |records| <= |written|
    && records == written[..|records|]
    && |EncodeAll(crc, 0, records)| <= |file|
    && (|records| < |written| ==> |file| < |EncodeAll(crc, 0, written[..|records| + 1])|)
  }

  /** The reader's loop: the first `i` records are `records`. */
  ghost predicate Progressing(crc: Checksum, file: Bytes, written: seq<Bytes>, records: seq<Bytes>, st: ReaderState) {
    && |records| <= |written|
    && records == written[..|records|]
    && ReadUpTo(crc, file, written, |records|, st)
  }

  lemma StartsReading(crc: Checksum, file: Bytes, written: seq<Bytes>)
    requires HoldsPrefix(file, 0, EncodeAll(crc, 0, written))
    ensures Progressing(crc, file, written, [], START)
  {
    assert written[..0] == [] && written[0..] == written;
  }

  lemma KeepsReading(crc: Checksum, file: Bytes, written: seq<Bytes>, records: seq<Bytes>, st: ReaderState, r: Logical)
    requires Progressing(crc, file, written, records, st) && r == ReadRecord(crc, file, st, false, [])
    ensures r.record.Some? ==>
      |records| < |written| && Progressing(crc, file, written, records + [r.record.value], r.st)
    ensures r.record.None? ==> r.st.dropped == [] && IsRecovered(crc, file, written, records)
  {
    var i := |records|;
    ReadNext(crc, file, written, i, st, r);
    if i < |written| {
      assert written[..i + 1] == records + [written[i]];
    }
  }

  /** One record more, or the end. */
  method NextWritten(reader: Reader, ghost written: seq<Bytes>, records: seq<Bytes>) returns (more: bool, r: seq<Bytes>)
    requires reader.Valid() && Progressing(reader.crc, reader.file, written, records, reader.State())
    modifies reader
    ensures reader.Valid()
    ensures more ==> |r| == |records| + 1 && Progressing(reader.crc, reader.file, written, r, reader.State())
    ensures !more ==> reader.dropped == [] && IsRecovered(reader.crc, reader.file, written, r)
  {
    ghost var st := reader.State();
    var record := reader.NextRecord();
    ghost var st' := reader.State();
    KeepsReading(reader.crc, reader.file, written, records, st, Logical(st', record));
    if record.Some? {
      more, r := true, records + [record.value];
    } else {
      more, r := false, records;
    }
  }

  method ReadRest(reader: Reader, ghost written: seq<Bytes>, before: seq<Bytes>) returns (records: seq<Bytes>)
    requires reader.Valid() && Progressing(reader.crc, reader.file, written, before, reader.State())
    modifies reader
    ensures reader.Valid() && reader.dropped == []
    ensures IsRecovered(reader.crc, reader.file, written, records)
    decreases |written| - |before|
  {
    var more;
    more, records := NextWritten(reader, written, before);
    if more {
      records := ReadRest(reader, written, records);
    }
  }

  /** Reading back any prefix of a written log, cut at any byte, returns exactly
      the records that lie wholly inside it and reports no corruption. */
  method ReadFile(crc: Checksum, file: Bytes, ghost written: seq<Bytes>)
    returns (records: seq<Bytes>, dropped: seq<nat>)
    requires HoldsPrefix(file, 0, EncodeAll(crc, 0, written))
    ensures dropped == []
    ensures IsRecovered(crc, file, written, records)
  {
    var reader := OpenLog(crc, file, written);
    records := ReadRest(reader, written, []);
    dropped := reader.dropped;
  }

  method OpenLog(crc: Checksum, file: Bytes, ghost written: seq<Bytes>) returns (reader: Reader)
    requires HoldsPrefix(file, 0, EncodeAll(crc, 0, written))
    ensures fresh(reader) && reader.Valid() && reader.crc == crc && reader.file == file
    ensures Progressing(reader.crc, reader.file, written, [], reader.State())
  {
    reader := new Reader(crc, file);
    StartsReading(crc, file, written);
  }

  /** Reading a whole log returns everything written. */
  method RoundTrip(crc: Checksum, written: seq<Bytes>, reopen: seq<bool>)
    returns (records: seq<Bytes>, dropped: seq<nat>)
    requires |reopen| == |written|
    ensures records == written && dropped == []
  {
    var file := WriteAll(crc, written, reopen);
    assert file[0..] == file[..|file|];
    records, dropped := ReadFile(crc, file, written);
    if |records| < |written| {
      ShorterIsNotLonger(crc, written, |records| + 1);
    }
  }

  lemma ShorterIsNotLonger(crc: Checksum, written: seq<Bytes>, n: nat)
    requires n <= |written|
    ensures |EncodeAll(crc, 0, written[..n])| <= |EncodeAll(crc, 0, written)|
    decreases |written| - n
  {
    if n == |written| {
      assert written[..n] == written;
    } else {
      assert written[..n + 1] == written[..n] + [written[n]];
      SequenceAppend(Encoder(crc), 0, written[..n], written[n]);
      ShorterIsNotLonger(crc, written, n + 1);
    }
  }
}
