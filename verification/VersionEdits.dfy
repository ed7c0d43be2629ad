/** The encoding of version edits, the records of a manifest. */
module VersionEdits {
  import opened InternalKeys
  import opened Coding


  datatype FileMeta = FileMeta(number: Word64, size: Word64, smallest: Bytes, largest: Bytes)

  /** One tagged field of the encoding. */
  datatype Field =
    | Comparator(name: Bytes)
    | LogNumber(n: Word64)
    | PrevLogNumber(n: Word64)
    | NextFileNumber(n: Word64)
    | LastSequence(n: Word64)
    | CompactPointer(level: nat, key: Bytes)
    | DeletedFile(level: nat, number: Word64)
    | NewFile(level: nat, meta: FileMeta)

  /** The value of an edit.  Deleted files are a set, kept in order. */
  datatype Edit = Edit(
    comparator: Option<Bytes>,
    logNumber: Option<Word64>,
    prevLogNumber: Option<Word64>,
    nextFileNumber: Option<Word64>,
    lastSequence: Option<Word64>,
    compactPointers: seq<(nat, Bytes)>,
    deletedFiles: seq<(nat, Word64)>,
    newFiles: seq<(nat, FileMeta)>)

  const EMPTY: Edit := Edit(None, None, None, None, None, [], [], [])

  // ---------------------------------------------------------------------
  // Fields
  // ---------------------------------------------------------------------

  predicate Short(b: Bytes) {
    |b| < WORD32
  }

  predicate Encodable(f: Field) {
    match f
    case Comparator(name) => Short(name)
    case CompactPointer(level, key) => level < NUM_LEVELS && Short(key)
    case DeletedFile(level, _) => level < NUM_LEVELS
    case NewFile(level, meta) => level < NUM_LEVELS && Short(meta.smallest) && Short(meta.largest)
    case _ => true
  }

  function TagOf(f: Field): Word32 {
    match f
    case Comparator(_) => 1
    case LogNumber(_) => 2
    case NextFileNumber(_) => 3
    case LastSequence(_) => 4
    case CompactPointer(_, _) => 5
    case DeletedFile(_, _) => 6
    case NewFile(_, _) => 7
    case PrevLogNumber(_) => 9
  }

  function EncodeLevel(level: nat): Bytes
    requires level < NUM_LEVELS
  {
    EncodeVarint32(level)
  }

  function EncodeMeta(meta: FileMeta): Bytes
    requires Short(meta.smallest) && Short(meta.largest)
  {
    EncodeVarint(meta.number) +
      (EncodeVarint(meta.size) + (PutLengthPrefixed(meta.smallest) + PutLengthPrefixed(meta.largest)))
  }

  function EncodePayload(f: Field): Bytes
    requires Encodable(f)
  {
    match f
    case Comparator(name) => PutLengthPrefixed(name)
    case LogNumber(n) => EncodeVarint(n)
    case PrevLogNumber(n) => EncodeVarint(n)
    case NextFileNumber(n) => EncodeVarint(n)
    case LastSequence(n) => EncodeVarint(n)
    case CompactPointer(level, key) => EncodeLevel(level) + PutLengthPrefixed(key)
    case DeletedFile(level, number) => EncodeLevel(level) + EncodeVarint(number)
    case NewFile(level, meta) => EncodeLevel(level) + EncodeMeta(meta)
  }

  function EncodeField(f: Field): (r: Bytes)
    requires Encodable(f)
    ensures r != []
  {
    EncodeVarint32(TagOf(f)) + EncodePayload(f)
  }

  function GetLevel(b: Bytes): Option<Decoded<nat>> {
    match GetVarint32(b)
    case None => None
    case Some(Decoded(v, rest)) => if v < NUM_LEVELS then Some(Decoded(v, rest)) else None
  }

  function GetMeta(b: Bytes): Option<Decoded<FileMeta>> {
    match GetVarint64(b)
    case None => None
    case Some(Decoded(number, b1)) =>
      match GetVarint64(b1)
      case None => None
      case Some(Decoded(size, b2)) =>
        match GetLengthPrefixed(b2)
        case None => None
        case Some(Decoded(smallest, b3)) =>
          match GetLengthPrefixed(b3)
          case None => None
          case Some(Decoded(largest, b4)) => Some(Decoded(FileMeta(number, size, smallest, largest), b4))
  }

  /** The payload of a field, by its tag. */
  function GetPayload(tag: Word32, b: Bytes): Option<Decoded<Field>> {
    if tag == 1 then
      var r := GetLengthPrefixed(b);
      if r.None? then None else Some(Decoded(Comparator(r.value.value), r.value.rest))
    else if tag == 2 || tag == 3 || tag == 4 || tag == 9 then
      var r := GetVarint64(b);
      if r.None? then None
      else
        var n := r.value.value;
        var f := if tag == 2 then LogNumber(n) else if tag == 3 then NextFileNumber(n)
                 else if tag == 4 then LastSequence(n) else PrevLogNumber(n);
        Some(Decoded(f, r.value.rest))
    else if tag == 5 || tag == 6 || tag == 7 then
      var l := GetLevel(b);
      if l.None? then None
      else GetAtLevel(tag, l.value.value, l.value.rest)
    else None
  }

  function GetAtLevel(tag: Word32, level: nat, b: Bytes): Option<Decoded<Field>> {
    if tag == 5 then
      var r := GetLengthPrefixed(b);
      if r.None? then None else Some(Decoded(CompactPointer(level, r.value.value), r.value.rest))
    else if tag == 6 then
      var r := GetVarint64(b);
      if r.None? then None else Some(Decoded(DeletedFile(level, r.value.value), r.value.rest))
    else
      var r := GetMeta(b);
      if r.None? then None else Some(Decoded(NewFile(level, r.value.value), r.value.rest))
  }

  lemma LevelRoundTrip(level: nat, rest: Bytes)
    requires level < NUM_LEVELS
    ensures GetLevel(EncodeLevel(level) + rest) == Some(Decoded(level, rest))
  {
    Varint32RoundTrip(level, rest);
  }

  lemma MetaRoundTrip(meta: FileMeta, rest: Bytes)
    requires Short(meta.smallest) && Short(meta.largest)
    ensures GetMeta(EncodeMeta(meta) + rest) == Some(Decoded(meta, rest))
  {
    var a, b := EncodeVarint(meta.number), EncodeVarint(meta.size);
    var c, d := PutLengthPrefixed(meta.smallest), PutLengthPrefixed(meta.largest);
    FourParts(a, b, c, d, rest);
    Varint64RoundTrip(meta.number, b + (c + (d + rest)));
    Varint64RoundTrip(meta.size, c + (d + rest));
    LengthPrefixedRoundTrip(meta.smallest, d + rest);
    LengthPrefixedRoundTrip(meta.largest, rest);
  }

  lemma FourParts(a: Bytes, b: Bytes, c: Bytes, d: Bytes, rest: Bytes)
    ensures (a + (b + (c + d))) + rest == a + (b + (c + (d + rest)))
  {
  }

  lemma TwoParts(a: Bytes, b: Bytes, rest: Bytes)
    ensures (a + b) + rest == a + (b + rest)
  {
  }

  lemma CompactPointerRoundTrip(level: nat, key: Bytes, rest: Bytes)
    requires Encodable(CompactPointer(level, key))
    ensures GetPayload(TagOf(CompactPointer(level, key)), EncodePayload(CompactPointer(level, key)) + rest)
         == Some(Decoded(CompactPointer(level, key), rest))
  {
    TwoParts(EncodeLevel(level), PutLengthPrefixed(key), rest);
    LevelRoundTrip(level, PutLengthPrefixed(key) + rest);
    LengthPrefixedRoundTrip(key, rest);
  }

  lemma DeletedFileRoundTrip(level: nat, number: Word64, rest: Bytes)
    requires Encodable(DeletedFile(level, number))
    ensures GetPayload(TagOf(DeletedFile(level, number)), EncodePayload(DeletedFile(level, number)) + rest)
         == Some(Decoded(DeletedFile(level, number), rest))
  {
    TwoParts(EncodeLevel(level), EncodeVarint(number), rest);
    LevelRoundTrip(level, EncodeVarint(number) + rest);
    Varint64RoundTrip(number, rest);
  }

  lemma NewFileRoundTrip(level: nat, meta: FileMeta, rest: Bytes)
    requires Encodable(NewFile(level, meta))
    ensures GetPayload(TagOf(NewFile(level, meta)), EncodePayload(NewFile(level, meta)) + rest)
         == Some(Decoded(NewFile(level, meta), rest))
  {
    TwoParts(EncodeLevel(level), EncodeMeta(meta), rest);
    LevelRoundTrip(level, EncodeMeta(meta) + rest);
    MetaRoundTrip(meta, rest);
  }

  lemma NumberRoundTrip(f: Field, n: Word64, rest: Bytes)
    requires f == LogNumber(n) || f == PrevLogNumber(n) || f == NextFileNumber(n) || f == LastSequence(n)
    ensures GetPayload(TagOf(f), EncodePayload(f) + rest) == Some(Decoded(f, rest))
  {
    Varint64RoundTrip(n, rest);
  }

  lemma PayloadRoundTrip(f: Field, rest: Bytes)
    requires Encodable(f)
    ensures GetPayload(TagOf(f), EncodePayload(f) + rest) == Some(Decoded(f, rest))
  {
    match f
    case Comparator(name) => LengthPrefixedRoundTrip(name, rest);
    case LogNumber(n) => NumberRoundTrip(f, n, rest);
    case PrevLogNumber(n) => NumberRoundTrip(f, n, rest);
    case NextFileNumber(n) => NumberRoundTrip(f, n, rest);
    case LastSequence(n) => NumberRoundTrip(f, n, rest);
    case CompactPointer(level, key) => CompactPointerRoundTrip(level, key, rest);
    case DeletedFile(level, number) => DeletedFileRoundTrip(level, number, rest);
    case NewFile(level, meta) => NewFileRoundTrip(level, meta, rest);
  }

  // ---------------------------------------------------------------------
  // Sequences of fields
  // ---------------------------------------------------------------------

  predicate AllEncodable(fs: seq<Field>) {
    forall i :: 0 <= i < |fs| ==> Encodable(fs[i])
  }

  function EncodeEach(encode: Field --> Bytes, fs: seq<Field>): Bytes
    requires forall i :: 0 <= i < |fs| ==> encode.requires(fs[i])
  {
    if fs == [] then [] else EncodeEach(encode, fs[..|fs| - 1]) + encode(fs[|fs| - 1])
  }

  function EncodeFields(fs: seq<Field>): Bytes
    requires AllEncodable(fs)
  {
    EncodeEach(EncodeField, fs)
  }

  /** Outcome of decoding: the edit so far, and whether there was no error. */
  datatype Outcome = Outcome(edit: Edit, ok: bool)

  /** Setting one decoded field. */
  function Assign(e: Edit, f: Field): Edit {
    match f
    case Comparator(name) => e.(comparator := Some(name))
    case LogNumber(n) => e.(logNumber := Some(n))
    case PrevLogNumber(n) => e.(prevLogNumber := Some(n))
    case NextFileNumber(n) => e.(nextFileNumber := Some(n))
    case LastSequence(n) => e.(lastSequence := Some(n))
    case CompactPointer(level, key) => e.(compactPointers := e.compactPointers + [(level, key)])
    case DeletedFile(level, number) => e.(deletedFiles := InsertInOrder(e.deletedFiles, (level, number)))
    case NewFile(level, meta) => e.(newFiles := e.newFiles + [(level, meta)])
  }

  predicate PairLess(a: (nat, Word64), b: (nat, Word64)) {
    a.0 < b.0 || (a.0 == b.0 && a.1 < b.1)
  }

  function InsertInOrder(xs: seq<(nat, Word64)>, x: (nat, Word64)): seq<(nat, Word64)> {
    if xs == [] then [x]
    else if xs[|xs| - 1] == x then xs
    else if PairLess(xs[|xs| - 1], x) then xs + [x]
    else InsertInOrder(xs[..|xs| - 1], x) + [xs[|xs| - 1]]
  }

  function AssignAll(e: Edit, fs: seq<Field>): Edit {
    if fs == [] then e else Assign(AssignAll(e, fs[..|fs| - 1]), fs[|fs| - 1])
  }

  /** The decoding loop from any point of it. */
  function DecodeFrom(b: Bytes, e: Edit): Outcome
    decreases |b|
  {
    var tag := GetVarint32(b);
    if tag.None? then Outcome(e, b == [])
    else
      var r := GetPayload(tag.value.value, tag.value.rest);
      FieldConsumes(b);
      if r.None? then Outcome(e, false)
      else DecodeFrom(r.value.rest, Assign(e, r.value.value))
  }

  lemma MetaConsumes(b: Bytes)
    ensures var r := GetMeta(b); r.Some? ==> |r.value.rest| < |b|
  {
    VarintConsumes(b, 10);
    var b1 := GetVarint64(b);
    if b1.Some? {
      VarintConsumes(b1.value.rest, 10);
      var b2 := GetVarint64(b1.value.rest);
      if b2.Some? {
        PrefixedConsumes(b2.value.rest);
        var b3 := GetLengthPrefixed(b2.value.rest);
        if b3.Some? {
          PrefixedConsumes(b3.value.rest);
        }
      }
    }
  }

  lemma AtLevelConsumes(tag: Word32, level: nat, b: Bytes)
    ensures var r := GetAtLevel(tag, level, b); r.Some? ==> |r.value.rest| < |b|
  {
    VarintConsumes(b, 10);
    PrefixedConsumes(b);
    MetaConsumes(b);
  }

  lemma PayloadConsumes(tag: Word32, b: Bytes)
    ensures var r := GetPayload(tag, b); r.Some? ==> |r.value.rest| < |b|
  {
    VarintConsumes(b, 5);
    VarintConsumes(b, 10);
    PrefixedConsumes(b);
    var l := GetLevel(b);
    if l.Some? {
      AtLevelConsumes(tag, l.value.value, l.value.rest);
    }
  }

  /** A field with its tag takes input, so decoding ends. */
  lemma FieldConsumes(b: Bytes)
    ensures var tag := GetVarint32(b);
      tag.Some? ==>
        var r := GetPayload(tag.value.value, tag.value.rest);
        r.Some? ==> |r.value.rest| < |b|
  {
    VarintConsumes(b, 5);
    var tag := GetVarint32(b);
    if tag.Some? {
      PayloadConsumes(tag.value.value, tag.value.rest);
    }
  }

  /** Decoding one encoded field and going on. */
  lemma DecodeOne(f: Field, rest: Bytes, e: Edit)
    requires Encodable(f)
    ensures DecodeFrom(EncodeField(f) + rest, e) == DecodeFrom(rest, Assign(e, f))
  {
    var tag, payload := EncodeVarint32(TagOf(f)), EncodePayload(f);
    TwoParts(tag, payload, rest);
    Varint32RoundTrip(TagOf(f), payload + rest);
    PayloadRoundTrip(f, rest);
    DecodeStep(EncodeField(f) + rest, e, TagOf(f), payload + rest, f, rest);
  }

  lemma DecodeStep(b: Bytes, e: Edit, tag: Word32, payload: Bytes, f: Field, rest: Bytes)
    requires GetVarint32(b) == Some(Decoded(tag, payload)) && GetPayload(tag, payload) == Some(Decoded(f, rest))
    requires |rest| < |b|
    ensures DecodeFrom(b, e) == DecodeFrom(rest, Assign(e, f))
  {
  }

  lemma {:induction false} FieldsRoundTrip(fs: seq<Field>, rest: Bytes, e: Edit)
    requires AllEncodable(fs)
    ensures DecodeFrom(EncodeFields(fs) + rest, e) == DecodeFrom(rest, AssignAll(e, fs))
    decreases |fs|
  {
    if fs == [] {
      assert EncodeFields(fs) + rest == rest;
    } else {
      var n := |fs| - 1;
      TwoParts(EncodeFields(fs[..n]), EncodeField(fs[n]), rest);
      FieldsRoundTrip(fs[..n], EncodeField(fs[n]) + rest, e);
      DecodeOne(fs[n], rest, AssignAll(e, fs[..n]));
    }
  }

  // ---------------------------------------------------------------------
  // Edits
  // ---------------------------------------------------------------------

  function NumberField(n: Option<Word64>, tag: Word32): (r: seq<Field>)
    ensures |r| <= 1
  {
    if n.None? then []
    else if tag == 2 then [LogNumber(n.value)]
    else if tag == 3 then [NextFileNumber(n.value)]
    else if tag == 4 then [LastSequence(n.value)]
    else [PrevLogNumber(n.value)]
  }

  function NameField(name: Option<Bytes>): (r: seq<Field>)
    ensures |r| <= 1
  {
    if name.None? then [] else [Comparator(name.value)]
  }

  function ComparatorField(e: Edit): (r: seq<Field>)
    ensures |r| <= 1
  {
    NameField(e.comparator)
  }

  /** The fields of an edit, in the order they are written. */
  function Header(e: Edit): seq<Field> {
    ComparatorField(e) + NumberField(e.logNumber, 2) + NumberField(e.prevLogNumber, 9)
    + NumberField(e.nextFileNumber, 3) + NumberField(e.lastSequence, 4)
  }

  function PointerFields(e: Edit): (r: seq<Field>)
    ensures |r| == |e.compactPointers|
  {
    seq(|e.compactPointers|, i requires 0 <= i < |e.compactPointers| =>
      CompactPointer(e.compactPointers[i].0, e.compactPointers[i].1))
  }

  function DeletedFields(e: Edit): (r: seq<Field>)
    ensures |r| == |e.deletedFiles|
  {
    seq(|e.deletedFiles|, i requires 0 <= i < |e.deletedFiles| => DeletedFile(e.deletedFiles[i].0, e.deletedFiles[i].1))
  }

  function NewFields(e: Edit): (r: seq<Field>)
    ensures |r| == |e.newFiles|
  {
    seq(|e.newFiles|, i requires 0 <= i < |e.newFiles| => NewFile(e.newFiles[i].0, e.newFiles[i].1))
  }

  function FieldsOf(e: Edit): seq<Field> {
    Header(e) + PointerFields(e) + DeletedFields(e) + NewFields(e)
  }

  /** Levels exist, strings are short, and the deleted files are a set in order. */
  predicate ValidEdit(e: Edit) {
    && (e.comparator.Some? ==> Short(e.comparator.value))
    && (forall i :: 0 <= i < |e.compactPointers| ==>
      e.compactPointers[i].0 < NUM_LEVELS && Short(e.compactPointers[i].1))
    && (forall i :: 0 <= i < |e.deletedFiles| ==> e.deletedFiles[i].0 < NUM_LEVELS)
    && (forall i :: 0 <= i < |e.newFiles| ==>
          e.newFiles[i].0 < NUM_LEVELS && Short(e.newFiles[i].1.smallest) && Short(e.newFiles[i].1.largest))
    && forall i, j :: 0 <= i < j < |e.deletedFiles| ==> PairLess(e.deletedFiles[i], e.deletedFiles[j])
  }

  lemma ValidIsEncodable(e: Edit)
    requires ValidEdit(e)
    ensures AllEncodable(Header(e)) && AllEncodable(PointerFields(e)) && AllEncodable(DeletedFields(e))
    ensures AllEncodable(NewFields(e)) && AllEncodable(FieldsOf(e))
  {
    var a, b := Header(e) + PointerFields(e), Header(e) + PointerFields(e) + DeletedFields(e);
    assert AllEncodable(Header(e)) && AllEncodable(PointerFields(e));
    assert AllEncodable(a) && AllEncodable(DeletedFields(e));
    assert AllEncodable(b) && AllEncodable(NewFields(e));
  }

  lemma {:induction false} AssignConcat(e: Edit, a: seq<Field>, b: seq<Field>)
    ensures AssignAll(e, a + b) == AssignAll(AssignAll(e, a), b)
    decreases |b|
  {
    if b == [] {
      assert a + b == a;
    } else {
      var n := |b| - 1;
      assert (a + b)[..|a + b| - 1] == a + b[..n];
      AssignConcat(e, a, b[..n]);
    }
  }

  lemma AssignLast(from: Edit, fs: seq<Field>, n: nat)
    requires 0 < n <= |fs|
    ensures AssignAll(from, fs[..n]) == Assign(AssignAll(from, fs[..n - 1]), fs[n - 1])
  {
    assert fs[..n][..n - 1] == fs[..n - 1];
  }

  lemma {:induction false} AssignPointers(e: Edit, from: Edit, n: nat)
    requires n <= |e.compactPointers|
    ensures AssignAll(from, PointerFields(e)[..n])
         == from.(compactPointers := from.compactPointers + e.compactPointers[..n])
  {
    if n > 0 {
      AssignPointers(e, from, n - 1);
      AssignLast(from, PointerFields(e), n);
      assert from.compactPointers + e.compactPointers[..n]
          == (from.compactPointers + e.compactPointers[..n - 1]) + [e.compactPointers[n - 1]];
    }
  }

  lemma {:induction false} AssignNewFiles(e: Edit, from: Edit, n: nat)
    requires n <= |e.newFiles| && from.newFiles == []
    ensures AssignAll(from, NewFields(e)[..n]) == from.(newFiles := e.newFiles[..n])
  {
    if n > 0 {
      AssignNewFiles(e, from, n - 1);
      AssignLast(from, NewFields(e), n);
      assert e.newFiles[..n] == e.newFiles[..n - 1] + [e.newFiles[n - 1]];
    }
  }

  /** Inserting the elements of an ordered set in order rebuilds it. */
  lemma {:induction false} AssignDeleted(e: Edit, from: Edit, n: nat)
    requires ValidEdit(e) && n <= |e.deletedFiles| && from.deletedFiles == []
    ensures AssignAll(from, DeletedFields(e)[..n]) == from.(deletedFiles := e.deletedFiles[..n])
  {
    if n > 0 {
      AssignDeleted(e, from, n - 1);
      AssignLast(from, DeletedFields(e), n);
      InsertNext(e.deletedFiles, n);
    }
  }

  lemma InsertNext(xs: seq<(nat, Word64)>, n: nat)
    requires 0 < n <= |xs| && (n > 1 ==> PairLess(xs[n - 2], xs[n - 1]))
    ensures InsertInOrder(xs[..n - 1], xs[n - 1]) == xs[..n]
  {
    assert xs[..n] == xs[..n - 1] + [xs[n - 1]];
  }

  lemma AssignOptional(from: Edit, fs: seq<Field>)
    requires |fs| <= 1
    ensures AssignAll(from, fs) == if fs == [] then from else Assign(from, fs[0])
  {
    if fs != [] {
      assert fs[..0] == [] && AssignAll(from, fs[..0]) == from;
    }
  }

  lemma AssignComparator(e: Edit, from: Edit)
    requires from.comparator == None
    ensures AssignAll(from, ComparatorField(e)) == from.(comparator := e.comparator)
  {
    AssignOptional(from, ComparatorField(e));
  }

  lemma AssignNumber(n: Option<Word64>, tag: Word32, from: Edit)
    ensures var r := AssignAll(from, NumberField(n, tag));
      && (tag == 2 && from.logNumber == None ==> r == from.(logNumber := n))
      && (tag == 3 && from.nextFileNumber == None ==> r == from.(nextFileNumber := n))
      && (tag == 4 && from.lastSequence == None ==> r == from.(lastSequence := n))
      && (tag == 9 && from.prevLogNumber == None ==> r == from.(prevLogNumber := n))
  {
    AssignOptional(from, NumberField(n, tag));
  }

  lemma AssignFive(from: Edit, a: seq<Field>, b: seq<Field>, c: seq<Field>, d: seq<Field>, f: seq<Field>)
    ensures AssignAll(from, a + b + c + d + f)
      == AssignAll(AssignAll(AssignAll(AssignAll(AssignAll(from, a), b), c), d), f)
  {
    AssignConcat(from, a + b + c + d, f);
    AssignConcat(from, a + b + c, d);
    AssignConcat(from, a + b, c);
    AssignConcat(from, a, b);
  }

  lemma AssignHeader(e: Edit, from: Edit)
    requires from.comparator == None && from.logNumber == None && from.prevLogNumber == None
    requires from.nextFileNumber == None && from.lastSequence == None
    ensures AssignAll(from, Header(e))
         == Edit(e.comparator, e.logNumber, e.prevLogNumber, e.nextFileNumber, e.lastSequence,
                 from.compactPointers, from.deletedFiles, from.newFiles)
  {
    AssignFive(from, ComparatorField(e), NumberField(e.logNumber, 2), NumberField(e.prevLogNumber, 9),
               NumberField(e.nextFileNumber, 3), NumberField(e.lastSequence, 4));
    AssignComparator(e, from);
    var e1 := from.(comparator := e.comparator);
    AssignNumber(e.logNumber, 2, e1);
    var e2 := e1.(logNumber := e.logNumber);
    AssignNumber(e.prevLogNumber, 9, e2);
    var e3 := e2.(prevLogNumber := e.prevLogNumber);
    AssignNumber(e.nextFileNumber, 3, e3);
    AssignNumber(e.lastSequence, 4, e3.(nextFileNumber := e.nextFileNumber));
  }

  /** What `Clear` leaves: the compaction pointers stay. */
  function Cleared(e: Edit): Edit {
    EMPTY.(compactPointers := e.compactPointers)
  }

  lemma AssignFields(e: Edit, before: Edit)
    requires ValidEdit(e)
    ensures AssignAll(Cleared(before), FieldsOf(e)) == e.(compactPointers := before.compactPointers + e.compactPointers)
  {
    var from := Cleared(before);
    AssignConcat(from, Header(e) + PointerFields(e) + DeletedFields(e), NewFields(e));
    AssignConcat(from, Header(e) + PointerFields(e), DeletedFields(e));
    AssignConcat(from, Header(e), PointerFields(e));
    AssignHeader(e, from);
    var e1 := AssignAll(from, Header(e));
    WholeLists(e);
    AssignPointers(e, e1, |e.compactPointers|);
    var e2 := AssignAll(e1, PointerFields(e));
    AssignDeleted(e, e2, |e.deletedFiles|);
    var e3 := AssignAll(e2, DeletedFields(e));
    AssignNewFiles(e, e3, |e.newFiles|);
  }

  lemma WholeLists(e: Edit)
    ensures PointerFields(e)[..|e.compactPointers|] == PointerFields(e)
    ensures DeletedFields(e)[..|e.deletedFiles|] == DeletedFields(e)
    ensures NewFields(e)[..|e.newFiles|] == NewFields(e)
    ensures e.compactPointers[..|e.compactPointers|] == e.compactPointers
    ensures e.deletedFiles[..|e.deletedFiles|] == e.deletedFiles && e.newFiles[..|e.newFiles|] == e.newFiles
  {
  }

  /** Decoding an encoded edit gives it back, except that compaction pointers
      the edit object already had come first. */
  lemma EditRoundTrip(e: Edit, before: Edit)
    requires ValidEdit(e)
    ensures AllEncodable(FieldsOf(e))
    ensures DecodeFrom(EncodeFields(FieldsOf(e)), Cleared(before))
         == Outcome(e.(compactPointers := before.compactPointers + e.compactPointers), true)
  {
    ValidIsEncodable(e);
    var b := EncodeFields(FieldsOf(e));
    assert b + [] == b;
    FieldsRoundTrip(FieldsOf(e), [], Cleared(before));
    AssignFields(e, before);
  }

  /** So decoding into an edit object gives the encoded edit exactly when the
      object had no compaction pointers. */
  lemma EditRoundTripIff(e: Edit, before: Edit)
    requires ValidEdit(e)
    ensures AllEncodable(FieldsOf(e))
    ensures DecodeFrom(EncodeFields(FieldsOf(e)), Cleared(before)) == Outcome(e, true) <==> before.compactPointers == []
  {
    EditRoundTrip(e, before);
    SamePointersIff(e, before.compactPointers);
  }

  lemma SamePointersIff(e: Edit, pointers: seq<(nat, Bytes)>)
    ensures e.(compactPointers := pointers + e.compactPointers) == e <==> pointers == []
  {
    assert |pointers + e.compactPointers| == |pointers| + |e.compactPointers|;
  }

  // ---------------------------------------------------------------------
  // The edit as an object
  // ---------------------------------------------------------------------

  class VersionEdit {
    var comparator: Option<Bytes>
    var logNumber: Option<Word64>
    var prevLogNumber: Option<Word64>
    var nextFileNumber: Option<Word64>
    var lastSequence: Option<Word64>
    var compactPointers: seq<(nat, Bytes)>
    var deletedFiles: seq<(nat, Word64)>
    var newFiles: seq<(nat, FileMeta)>

    function Value(): Edit
      reads this
    {
      Edit(comparator, logNumber, prevLogNumber, nextFileNumber, lastSequence, compactPointers, deletedFiles, newFiles)
    }

    constructor ()
      ensures Value() == EMPTY
    {
      comparator, logNumber, prevLogNumber, nextFileNumber, lastSequence := None, None, None, None, None;
      compactPointers, deletedFiles, newFiles := [], [], [];
    }

    method Clear()
      modifies this
      ensures Value() == Cleared(old(Value()))
    {
      comparator, logNumber, prevLogNumber, nextFileNumber, lastSequence := None, None, None, None, None;
      deletedFiles, newFiles := [], [];
    }

    /** The single fields that are set. */
    method PutHeader(dst: Bytes) returns (r: Bytes)
      requires ValidEdit(Value())
      ensures AllEncodable(Header(Value())) && r == dst + EncodeFields(Header(Value()))
    {
      r := PutComparator(dst, comparator);
      ghost var c := ComparatorField(Value());
      ghost var l, p, n := NumberField(logNumber, 2), NumberField(prevLogNumber, 9), NumberField(nextFileNumber, 3);
      r := PutNumber(r, logNumber, 2, dst, c);
      r := PutNumber(r, prevLogNumber, 9, dst, c + l);
      r := PutNumber(r, nextFileNumber, 3, dst, c + l + p);
      r := PutNumber(r, lastSequence, 4, dst, c + l + p + n);
    }

    method EncodeTo(dst: Bytes) returns (r: Bytes)
      requires ValidEdit(Value())
      ensures AllEncodable(FieldsOf(Value())) && r == dst + EncodeFields(FieldsOf(Value()))
    {
      var e := Value();
      ValidIsEncodable(e);
      r := PutHeader(dst);
      r := PutList(r, PointerFields(e), dst, Header(e));
      r := PutList(r, DeletedFields(e), dst, Header(e) + PointerFields(e));
      r := PutList(r, NewFields(e), dst, Header(e) + PointerFields(e) + DeletedFields(e));
    }

    /** Sets one decoded field. */
    method SetField(f: Field)
      modifies this
      ensures Value() == Assign(old(Value()), f)
    {
      match f
      case Comparator(name) => comparator := Some(name);
      case LogNumber(n) => logNumber := Some(n);
      case PrevLogNumber(n) => prevLogNumber := Some(n);
      case NextFileNumber(n) => nextFileNumber := Some(n);
      case LastSequence(n) => lastSequence := Some(n);
      case CompactPointer(level, key) => compactPointers := compactPointers + [(level, key)];
      case DeletedFile(level, number) => deletedFiles := InsertInOrder(deletedFiles, (level, number));
      case NewFile(level, meta) => newFiles := newFiles + [(level, meta)];
    }

    method Decode(src: Bytes) returns (ok: bool)
      modifies this
      ensures Outcome(Value(), ok) == DecodeFrom(src, Cleared(old(Value())))
    {
      Clear();
      var input := src;
      while true
        invariant DecodeFrom(input, Value()) == DecodeFrom(src, Cleared(old(Value())))
        decreases |input|
      {
        var tag := GetVarint32(input);
        if tag.None? {
          return input == [];
        }
        FieldConsumes(input);
        var r := GetPayload(tag.value.value, tag.value.rest);
        if r.None? {
          return false;
        }
        SetField(r.value.value);
        input := r.value.rest;
      }
    }
  }

  lemma EncodeSnoc(done: seq<Field>, f: Field)
    requires AllEncodable(done) && Encodable(f)
    ensures AllEncodable(done + [f]) && EncodeFields(done + [f]) == EncodeFields(done) + EncodeField(f)
  {
    assert (done + [f])[..|done|] == done;
  }

  method PutField(b: Bytes, f: Field, ghost dst: Bytes, ghost done: seq<Field>) returns (r: Bytes)
    requires Encodable(f) && AllEncodable(done) && b == dst + EncodeFields(done)
    ensures AllEncodable(done + [f]) && r == dst + EncodeFields(done + [f])
  {
    EncodeSnoc(done, f);
    TwoParts(dst, EncodeFields(done), EncodeField(f));
    r := b + EncodeField(f);
  }

  method PutComparator(dst: Bytes, name: Option<Bytes>) returns (r: Bytes)
    requires name.Some? ==> Short(name.value)
    ensures AllEncodable(NameField(name)) && r == dst + EncodeFields(NameField(name))
  {
    assert dst + EncodeFields([]) == dst;
    r := dst;
    if name.Some? {
      r := PutField(r, Comparator(name.value), dst, []);
      assert [] + [Comparator(name.value)] == NameField(name);
    }
  }

  method PutNumber(b: Bytes, n: Option<Word64>, tag: Word32, ghost dst: Bytes, ghost done: seq<Field>)
    returns (r: Bytes)
    requires AllEncodable(done) && b == dst + EncodeFields(done)
    ensures AllEncodable(done + NumberField(n, tag)) && r == dst + EncodeFields(done + NumberField(n, tag))
  {
    var fields := NumberField(n, tag);
    if fields == [] {
      assert done + fields == done;
      r := b;
    } else {
      r := PutField(b, fields[0], dst, done);
      assert fields == [fields[0]];
    }
  }

  method PutList(b: Bytes, fields: seq<Field>, ghost dst: Bytes, ghost before: seq<Field>) returns (r: Bytes)
    requires AllEncodable(fields) && AllEncodable(before) && b == dst + EncodeFields(before)
    ensures AllEncodable(before + fields) && r == dst + EncodeFields(before + fields)
  {
    r := b;
    ghost var done := before;
    ListStart(before, fields);
    for i := 0 to |fields|
      invariant done == before + fields[..i] && AllEncodable(done) && r == dst + EncodeFields(done)
    {
      r := PutField(r, fields[i], dst, done);
      ListStep(before, fields, i);
      done := done + [fields[i]];
    }
  }

  lemma ListStart(before: seq<Field>, fields: seq<Field>)
    ensures before + fields[..0] == before && fields[..|fields|] == fields
  {
  }

  lemma ListStep(before: seq<Field>, fields: seq<Field>, i: nat)
    requires i < |fields|
    ensures before + fields[..i + 1] == (before + fields[..i]) + [fields[i]]
  {
  }

  /** Writing an edit and reading it into a new edit object. */
  method RoundTrip(edit: VersionEdit) returns (copy: VersionEdit, ok: bool)
    requires ValidEdit(edit.Value())
    ensures fresh(copy) && ok && copy.Value() == edit.Value()
  {
    var b := edit.EncodeTo([]);
    EditRoundTrip(edit.Value(), EMPTY);
    copy := new VersionEdit();
    assert [] + EncodeFields(FieldsOf(edit.Value())) == EncodeFields(FieldsOf(edit.Value()));
    ok := copy.Decode(b);
    assert [] + edit.Value().compactPointers == edit.Value().compactPointers;
  }
}
