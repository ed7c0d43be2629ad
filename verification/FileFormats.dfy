/** The bytes of LevelDB's files in plain numbers: what is written, against the
    formats that its documentation gives. */
module FileFormats {
  import opened InternalKeys
  import opened Coding
  import Logs
  import Batches = WriteBatches
  import Edits = VersionEdits
  import Keys = IndexKeys
  import FilterBlocks
  import opened Blocks
  import opened Tables

  // ---------------------------------------------------------------------
  // The log
  // ---------------------------------------------------------------------

  /** A checksum as stored: rotated right by 15 bits, plus a constant. */
  function Stored(crc: Word32): nat {
    (crc / 32768 + crc % 32768 * 131072 + 2726488792) % 4294967296
  }

  /** A record from an offset on where a header fits: pieces of seven bytes of
      header (checksum, length, type 1 to 4) and payload, and every piece but the
      last fills its block. */
  predicate IsFragments(crc: Logs.Checksum, offset: nat, data: Bytes, begin: bool, b: Bytes)
    requires offset <= 32761
    decreases |data|, offset
  {
    var n := if |data| < 32761 - offset then |data| else 32761 - offset;
    var kind := if begin then (if n == |data| then 1 else 2) else if n == |data| then 4 else 3;
    && |b| >= 7 + n
    && LittleEndian(b[..4]) == Stored(crc(kind, data[..n]))
    && LittleEndian(b[4..6]) == n && b[6] == kind && b[7..7 + n] == data[..n]
    && if n == |data| then |b| == 7 + n else IsFragments(crc, 0, data[n..], false, b[7 + n..])
  }

  /** Up to six zeros where no header fits, and the record. */
  predicate IsLogRecord(crc: Logs.Checksum, offset: nat, data: Bytes, b: Bytes)
    requires offset < 32768
  {
    if offset <= 32761 then IsFragments(crc, offset, data, true, b)
    else
      var left := 32768 - offset;
      && |b| >= left && (forall i :: 0 <= i < left ==> b[i] == 0)
      && IsFragments(crc, 0, data, true, b[left..])
  }

  lemma HeaderFormat(crc: Logs.Checksum, kind: Byte, data: Bytes)
    requires |data| <= 0xffff
    ensures var head := Logs.Header(crc, kind, data);
      LittleEndian(head[..4]) == Stored(crc(kind, data)) && LittleEndian(head[4..6]) == |data| && head[6] == kind
  {
    var head := Logs.Header(crc, kind, data);
    assert head[..4] == EncodeFixed32(Mask(crc(kind, data)));
    Fixed32IsLittleEndian(Mask(crc(kind, data)));
    assert head[4..6] == [|data| % 256] + ([|data| / 256] + []);
    FirstOctet(|data| % 256, [|data| / 256] + []);
    FirstOctet(|data| / 256, []);
  }

  lemma FragmentFormat(head: Bytes, payload: Bytes, rest: Bytes, b: Bytes)
    requires |head| == 7 && b == head + payload + rest
    ensures b[..4] == head[..4] && b[4..6] == head[4..6] && b[6] == head[6]
    ensures b[7..7 + |payload|] == payload && b[7 + |payload|..] == rest && |b| == 7 + |payload| + |rest|
  {
  }

  /** A piece in front of the rest of its record. */
  lemma FragmentFirst(crc: Logs.Checksum, offset: nat, data: Bytes, begin: bool, head: Bytes, n: nat, kind: Byte,
                      rest: Bytes)
    requires offset <= 32761 && |head| == 7 && n == if |data| < 32761 - offset then |data| else 32761 - offset
    requires kind == if begin then (if n == |data| then 1 else 2) else if n == |data| then 4 else 3
    requires LittleEndian(head[..4]) == Stored(crc(kind, data[..n])) && LittleEndian(head[4..6]) == n && head[6] == kind
    requires if n == |data| then rest == [] else IsFragments(crc, 0, data[n..], false, rest)
    ensures IsFragments(crc, offset, data, begin, head + data[..n] + rest)
  {
    FragmentFormat(head, data[..n], rest, head + data[..n] + rest);
  }

  lemma {:induction false} FragmentsFormat(crc: Logs.Checksum, offset: nat, data: Bytes, begin: bool)
    requires offset <= 32761
    ensures IsFragments(crc, offset, data, begin, Logs.EncodeRecord(crc, offset, data, begin))
    decreases |data|, offset
  {
    var n := Logs.Fragment(offset, data);
    var end := |data| == n;
    var kind := Logs.RecordType(begin, end);
    var rest := if end then [] else Logs.EncodeRecord(crc, offset + 7 + n, data[n..], false);
    HeaderFormat(crc, kind, data[..n]);
    if !end {
      Logs.BlockEndIsStart(crc, data[n..], false);
      FragmentsFormat(crc, 0, data[n..], false);
    }
    FragmentFirst(crc, offset, data, begin, Logs.Header(crc, kind, data[..n]), n, kind, rest);
  }

  /** What the log writer appends for a record has the log format. */
  lemma LogRecordFormat(crc: Logs.Checksum, offset: nat, data: Bytes)
    requires offset < 32768
    ensures IsLogRecord(crc, offset, data, Logs.EncodeRecord(crc, offset, data, true))
  {
    if offset <= 32761 {
      FragmentsFormat(crc, offset, data, true);
    } else {
      var left := 32768 - offset;
      var more := Logs.EncodeRecord(crc, 0, data, true);
      var b := Zeros(left) + more;
      assert b == Logs.EncodeRecord(crc, offset, data, true) && b[left..] == more;
      FragmentsFormat(crc, 0, data, true);
    }
  }

  // ---------------------------------------------------------------------
  // Write batches
  // ---------------------------------------------------------------------

  /** Type 1, key and value; or type 0 and the key. */
  ghost predicate IsOperation(op: Batches.Operation, b: Bytes) {
    match op
    case Put(key, value) => exists k, v :: IsPrefixed(k, key) && IsPrefixed(v, value) && b == [1] + k + v
    case Delete(key) => exists k :: IsPrefixed(k, key) && b == [0] + k
  }

  /** Eight bytes of sequence number, four of count, and the operations. */
  ghost predicate IsBatch(sequence: nat, ops: seq<Batches.Operation>, b: Bytes) {
    && |b| >= 12 && LittleEndian(b[..8]) == sequence && LittleEndian(b[8..12]) == |ops|
    && AreOperations(ops, b[12..])
  }

  ghost predicate AreOperations(ops: seq<Batches.Operation>, b: Bytes) {
    exists parts ::
      |parts| == |ops| && b == Joined(parts) && forall i :: 0 <= i < |ops| ==> IsOperation(ops[i], parts[i])
  }

  lemma OperationFormat(op: Batches.Operation)
    requires Batches.Encodable(op)
    ensures IsOperation(op, Batches.EncodeOperation(op))
  {
    PrefixedFormat(op.key);
    if op.Put? {
      PrefixedFormat(op.value);
    }
  }

  lemma {:induction false} OperationsFormat(ops: seq<Batches.Operation>) returns (parts: seq<Bytes>)
    requires Batches.AllEncodable(ops)
    ensures |parts| == |ops| && Batches.EncodeOperations(ops) == Joined(parts)
    ensures forall i :: 0 <= i < |ops| ==> IsOperation(ops[i], parts[i])
  {
    if ops == [] {
      parts := [];
    } else {
      var more := OperationsFormat(ops[1..]);
      var first := Batches.EncodeOperation(ops[0]);
      OperationFormat(ops[0]);
      JoinedOne(first, more);
      parts := [first] + more;
      forall i | 0 <= i < |ops| ensures IsOperation(ops[i], parts[i]) {
        assert i > 0 ==> ops[i] == ops[1..][i - 1] && parts[i] == more[i - 1];
      }
    }
  }

  /** The bytes of a batch, which are those of a log record. */
  lemma BatchFormat(sequence: Word64, ops: seq<Batches.Operation>)
    requires Batches.AllEncodable(ops) && |ops| < WORD32
    ensures IsBatch(sequence, ops, Batches.Contents(sequence, ops))
  {
    var b := Batches.Contents(sequence, ops);
    assert b[..8] == EncodeFixed64(sequence) && b[8..12] == EncodeFixed32(|ops|);
    assert b[12..] == Batches.EncodeOperations(ops);
    Fixed64IsLittleEndian(sequence);
    Fixed32IsLittleEndian(|ops|);
    var parts := OperationsFormat(ops);
  }

  // ---------------------------------------------------------------------
  // Version edits
  // ---------------------------------------------------------------------

  ghost predicate IsTagged(tag: nat, payload: Bytes, b: Bytes) {
    exists t :: IsVarint(t, tag) && b == t + payload
  }

  ghost predicate IsLevelAnd(level: nat, rest: Bytes, b: Bytes) {
    exists l :: IsVarint(l, level) && b == l + rest
  }

  ghost predicate IsMeta(meta: Edits.FileMeta, b: Bytes) {
    exists n, s, lo, hi ::
      && IsVarint(n, meta.number) && IsVarint(s, meta.size)
      && IsPrefixed(lo, meta.smallest) && IsPrefixed(hi, meta.largest)
      && b == n + (s + (lo + hi))
  }

  /** A field of a manifest record: its tag, 1 to 7 or 9, and what it holds. */
  ghost predicate IsEditField(f: Edits.Field, b: Bytes) {
    match f
    case Comparator(name) => exists p :: IsPrefixed(p, name) && IsTagged(1, p, b)
    case LogNumber(n) => exists p :: IsVarint(p, n) && IsTagged(2, p, b)
    case NextFileNumber(n) => exists p :: IsVarint(p, n) && IsTagged(3, p, b)
    case LastSequence(n) => exists p :: IsVarint(p, n) && IsTagged(4, p, b)
    case CompactPointer(level, key) =>
      exists k, p :: IsPrefixed(k, key) && IsLevelAnd(level, k, p) && IsTagged(5, p, b)
    case DeletedFile(level, number) =>
      exists n, p :: IsVarint(n, number) && IsLevelAnd(level, n, p) && IsTagged(6, p, b)
    case NewFile(level, meta) => exists m, p :: IsMeta(meta, m) && IsLevelAnd(level, m, p) && IsTagged(7, p, b)
    case PrevLogNumber(n) => exists p :: IsVarint(p, n) && IsTagged(9, p, b)
  }

  lemma LevelFormat(level: nat, rest: Bytes)
    requires level < NUM_LEVELS
    ensures IsLevelAnd(level, rest, Edits.EncodeLevel(level) + rest)
  {
    Varint32IsVarint(level);
    VarintIsBase128(level);
  }

  lemma MetaFormat(meta: Edits.FileMeta)
    requires Edits.Short(meta.smallest) && Edits.Short(meta.largest)
    ensures IsMeta(meta, Edits.EncodeMeta(meta))
  {
    VarintIsBase128(meta.number);
    VarintIsBase128(meta.size);
    PrefixedFormat(meta.smallest);
    PrefixedFormat(meta.largest);
  }

  lemma TagFormat(tag: Word32, payload: Bytes)
    ensures IsTagged(tag, payload, EncodeVarint32(tag) + payload)
  {
    Varint32IsVarint(tag);
    VarintIsBase128(tag);
  }

  /** What is written for a field of an edit has the manifest format. */
  lemma EditFieldFormat(f: Edits.Field)
    requires Edits.Encodable(f)
    ensures IsEditField(f, Edits.EncodeField(f))
  {
    TagFormat(Edits.TagOf(f), Edits.EncodePayload(f));
    match f
    case Comparator(name) => PrefixedFormat(name);
    case LogNumber(n) => VarintIsBase128(n);
    case PrevLogNumber(n) => VarintIsBase128(n);
    case NextFileNumber(n) => VarintIsBase128(n);
    case LastSequence(n) => VarintIsBase128(n);
    case CompactPointer(level, key) =>
      PrefixedFormat(key);
      LevelFormat(level, PutLengthPrefixed(key));
    case DeletedFile(level, number) =>
      VarintIsBase128(number);
      LevelFormat(level, EncodeVarint(number));
    case NewFile(level, meta) =>
      MetaFormat(meta);
      LevelFormat(level, Edits.EncodeMeta(meta));
  }

  // ---------------------------------------------------------------------
  // Tables
  // ---------------------------------------------------------------------

  /** An entry of a block: three varints, what is not shared of the key, and the value. */
  ghost predicate IsEntry(shared: nat, key: Bytes, value: Bytes, b: Bytes)
    requires shared <= |key|
  {
    exists s, n, v ::
      && IsVarint(s, shared) && IsVarint(n, |key| - shared) && IsVarint(v, |value|)
      && b == s + n + v + key[shared..] + value
  }

  lemma EntryFormat(shared: nat, pair: Pair)
    requires shared <= |pair.key| < WORD32 && |pair.value| < WORD32
    ensures IsEntry(shared, pair.key, pair.value, EncodeEntry(shared, pair))
  {
    Varint32IsVarint(shared);
    Varint32IsVarint(|pair.key| - shared);
    Varint32IsVarint(|pair.value|);
    VarintIsBase128(shared);
    VarintIsBase128(|pair.key| - shared);
    VarintIsBase128(|pair.value|);
  }

  /** Behind a block: type 0, and the checksum of the block and that byte. */
  lemma TrailerFormat(crc: BlockChecksum, contents: Bytes)
    ensures var b := Trailer(crc, contents);
      |b| == 5 && b[0] == 0 && LittleEndian(b[1..]) == Stored(crc(contents + [0]))
  {
    var b := Trailer(crc, contents);
    assert b[1..] == EncodeFixed32(Mask(crc(contents + [0])));
    Fixed32IsLittleEndian(Mask(crc(contents + [0])));
  }

  ghost predicate IsHandle(h: Handle, b: Bytes) {
    exists o, s :: IsVarint(o, h.offset) && IsVarint(s, h.size) && b == o + s
  }

  lemma HandleFormat(h: Handle)
    ensures IsHandle(h, EncodeHandle(h))
  {
    VarintIsBase128(h.offset);
    VarintIsBase128(h.size);
  }

  /** At the end of a table: two handles, zeros up to 40 bytes, and the magic number. */
  ghost predicate IsFooter(meta: Handle, index: Handle, b: Bytes) {
    && |b| == 48 && LittleEndian(b[40..]) == 15800726617472432983
    && exists m, i :: IsHandle(meta, m) && IsHandle(index, i) && |m + i| <= 40 && b[..|m + i|] == m + i
                      && forall k :: |m + i| <= k < 40 ==> b[k] == 0
  }

  lemma FooterFormat(meta: Handle, index: Handle)
    ensures IsFooter(meta, index, EncodeFooter(meta, index))
  {
    var m, i := EncodeHandle(meta), EncodeHandle(index);
    HandleLength(meta);
    HandleLength(index);
    HandleFormat(meta);
    HandleFormat(index);
    MagicFormat();
    FooterParts(meta, index, m, i, EncodeFixed32(MAGIC_LOW), EncodeFixed32(MAGIC_HIGH));
  }

  lemma MagicFormat()
    ensures LittleEndian(EncodeFixed32(MAGIC_LOW) + EncodeFixed32(MAGIC_HIGH)) == 15800726617472432983
  {
    LittleEndianAppend(EncodeFixed32(MAGIC_LOW), EncodeFixed32(MAGIC_HIGH));
    Fixed32IsLittleEndian(MAGIC_LOW);
    Fixed32IsLittleEndian(MAGIC_HIGH);
  }

  lemma FooterParts(meta: Handle, index: Handle, m: Bytes, i: Bytes, low: Bytes, high: Bytes)
    requires IsHandle(meta, m) && IsHandle(index, i) && |m + i| <= 40
    requires |low| == |high| == 4 && LittleEndian(low + high) == 15800726617472432983
    ensures IsFooter(meta, index, (m + i) + seq(40 - |m + i|, _ => 0) + low + high)
  {
    assert ((m + i) + seq(40 - |m + i|, _ => 0) + low + high)[40..] == low + high;
  }

  /** An internal key: the user key, and eight bytes of sequence number and type. */
  lemma InternalKeyFormat(user: Bytes, sequence: SequenceNumber, kind: ValueType)
    ensures PackSequenceAndType(sequence, kind) < WORD64
    ensures var b := Keys.EncodeInternal(user, PackSequenceAndType(sequence, kind));
      && |b| == |user| + 8 && b[..|user|] == user
      && LittleEndian(b[|user|..]) == 256 * sequence + if kind.TypeDeletion? then 0 else 1
  {
    var tag := PackSequenceAndType(sequence, kind);
    assert tag < WORD64;
    assert Keys.EncodeInternal(user, tag)[|user|..] == EncodeFixed64(tag);
    Fixed64IsLittleEndian(tag);
  }

  /** At the end of a filter block: where the offsets start, and the window size
      as a power of two. */
  predicate EndsFilterBlock(results: Bytes, n: nat, b: Bytes) {
    && |b| == |results| + 4 * n + 5 && b[..|results|] == results && b[|b| - 1] == 11
    && LittleEndian(b[|b| - 5..|b| - 1]) == |results| % 4294967296
  }

  lemma FilterBlockFormat(p: FilterBlocks.Policy, done: seq<seq<Bytes>>)
    ensures EndsFilterBlock(FilterBlocks.Results(p, done), |done|, FilterBlocks.FilterBlockOf(p, done))
  {
    var results := FilterBlocks.Results(p, done);
    var offset := FilterBlocks.Word(|results|);
    Fixed32IsLittleEndian(offset);
    EndOf(results, |done|, FixedList(FilterBlocks.Offsets(p, done)), EncodeFixed32(offset));
  }

  lemma EndOf(results: Bytes, n: nat, offsets: Bytes, word: Bytes)
    requires |offsets| == 4 * n && |word| == 4 && LittleEndian(word) == |results| % 4294967296
    ensures EndsFilterBlock(results, n, results + (offsets + (word + [11])))
  {
    var b := results + (offsets + (word + [11]));
    assert b[|b| - 5..|b| - 1] == word;
  }
}
