/** The decoding loop of nanopb, with its circular field iterator and its record
    of the required fields seen. */
module ProtobufDecoders {
  import opened InternalKeys
  import opened ProtobufWires
  import opened ProtobufMessages

  /** Steps through the fields of a descriptor, wrapping around at the end; in a
      message without fields it stays on the end marker. */
  class FieldIter {
    const d: Descriptor
    var pos: nat
    var requiredIndex: nat

    ghost predicate Valid()
      reads this
    {
      && (pos < |d.fields| || (d.fields == [] && pos == 0))
      && requiredIndex == RequiredBefore(d, pos)
    }

    constructor (d: Descriptor)
      ensures Valid() && pos == 0 && this.d == d
    {
      this.d, pos, requiredIndex := d, 0, 0;
    }

    /** The end marker has tag 0 and, taken for a field, is required. */
    function Tag(): nat
      requires Valid()
      reads this
    {
      if d.fields == [] then 0 else d.fields[pos].tag
    }

    function IsRequired(): bool
      requires Valid()
      reads this
    {
      d.fields == [] || d.fields[pos].rule.Required?
    }

    /** False on wrapping around. */
    method Next() returns (more: bool)
      requires Valid()
      modifies this
      ensures Valid() && more == (old(pos) + 1 < |d.fields|)
      ensures pos == if more then old(pos) + 1 else 0
    {
      if d.fields == [] {
        return false;
      }
      if pos + 1 == |d.fields| {
        pos, requiredIndex := 0, 0;
        return false;
      }
      if d.fields[pos].rule.Required? {
        requiredIndex := requiredIndex + 1;
      }
      pos := pos + 1;
      more := true;
    }

    /** Searching from wherever the iterator is finds the field with this tag. */
    method FindTag(tag: nat) returns (found: bool)
      requires Valid() && DistinctTags(d)
      modifies this
      ensures Valid()
      ensures d.fields == [] ==> found == (tag == 0) && Find(d, tag) == None
      ensures d.fields != [] ==> Find(d, tag) == if found then Some(pos) else None
    {
      var start := pos;
      ghost var steps := 0;
      while true
        invariant Valid() && Passed(start, steps, tag)
        decreases |d.fields| - steps
      {
        if Tag() == tag {
          return true;
        }
        var more := Next();
        steps := steps + 1;
        if pos == start {
          return false;
        }
      }
    }

    /** The search has made so many steps from `start` and not met the tag. */
    ghost predicate Passed(start: nat, steps: nat, tag: nat)
      reads this
    {
      var n := |d.fields|;
      && steps <= n && (n > 0 ==> start < n && steps < n)
      && pos == (if start + steps < n then start + steps else if n == 0 then 0 else start + steps - n)
      && (forall i :: start <= i < start + steps && i < n ==> d.fields[i].tag != tag)
      && (forall i :: 0 <= i < start + steps - n && i < n ==> d.fields[i].tag != tag)
    }

    /** Seeking to the end counts the required fields. */
    method CountRequired() returns (count: nat)
      requires Valid()
      modifies this
      ensures count == RequiredBefore(d, |d.fields|)
    {
      count := 0;
      var lastRequired := false;
      var more := true;
      while more
        invariant Valid()
        invariant !more && d.fields == [] ==> count == 0
        invariant !more && d.fields != [] ==>
          count == RequiredBefore(d, |d.fields| - 1) && lastRequired == d.fields[|d.fields| - 1].rule.Required?
        decreases more, |d.fields| - pos
      {
        count, lastRequired := requiredIndex, IsRequired();
        more := Next();
      }
      if lastRequired && d.fields != [] {
        count := count + 1;
      }
    }
  }

  // ---------------------------------------------------------------------
  // The bitmap of required fields seen
  // ---------------------------------------------------------------------

  /** A 32-bit word, least significant bit first. */
  type Bits = w: seq<bool> | |w| == 32 witness seq(32, _ => false)

  const NO_BITS: Bits := seq(32, _ => false)
  const ALL_BITS: Bits := seq(32, _ => true)

  /** `w >> n` */
  function ShiftRight(w: Bits, n: nat): Bits {
    seq(32, i requires 0 <= i < 32 => i + n < 32 && w[i + n])
  }

  const SEEN_WORDS: nat := (MAX_REQUIRED_FIELDS + 31) / 32

  type Bitmap = m: seq<Bits> | |m| == SEEN_WORDS witness seq(SEEN_WORDS, _ => NO_BITS)

  predicate IsSet(m: Bitmap, i: nat)
    requires i < MAX_REQUIRED_FIELDS
  {
    m[i / 32][i % 32]
  }

  /** The fields marked in the bitmap are exactly those in `seen`. */
  ghost predicate Marks(m: Bitmap, seen: set<nat>) {
    && (forall i :: i in seen ==> i < MAX_REQUIRED_FIELDS)
    && forall i: nat :: i < MAX_REQUIRED_FIELDS ==> (IsSet(m, i) <==> i in seen)
  }

  /** `fields_seen[i >> 5] |= 1 << (i & 31)` */
  function SetBit(m: Bitmap, i: nat): Bitmap
    requires i < MAX_REQUIRED_FIELDS
  {
    m[i / 32 := m[i / 32][i % 32 := true]]
  }

  lemma SetBitMarks(m: Bitmap, seen: set<nat>, i: nat)
    requires Marks(m, seen) && i < MAX_REQUIRED_FIELDS
    ensures Marks(SetBit(m, i), seen + {i})
  {
  }

  /** Bits 0 to `count` are set, and no other up to the end of the last word read. */
  ghost predicate ExactlyFirst(m: Bitmap, count: nat)
    requires count <= MAX_REQUIRED_FIELDS
  {
    forall i :: 0 <= i < (count + 31) / 32 * 32 ==> (IsSet(m, i) <==> i < count)
  }

  /** Whole words of the bitmap must have all bits set; what is left over is
      compared with a mask, so that a bit too many fails as well. */
  method CheckSeen(m: Bitmap, count: nat) returns (ok: bool)
    requires count <= MAX_REQUIRED_FIELDS
    ensures ok <==> ExactlyFirst(m, count)
  {
    for word := 0 to count / 32
      invariant forall i :: 0 <= i < 32 * word ==> IsSet(m, i)
    {
      if m[word] != ALL_BITS {
        WordIsNotFull(m, word, count);
        return false;
      }
      WordIsFull(m, word);
    }
    ok := true;
    if count % 32 != 0 {
      ok := m[count / 32] == ShiftRight(ALL_BITS, 32 - count % 32);
      LastWord(m, count);
    }
  }

  lemma WordIsFull(m: Bitmap, word: nat)
    requires word < SEEN_WORDS && m[word] == ALL_BITS
    ensures forall i :: 32 * word <= i < 32 * word + 32 ==> IsSet(m, i)
  {
    forall i | 32 * word <= i < 32 * word + 32 ensures IsSet(m, i) {
      assert i / 32 == word;
    }
  }

  lemma WordIsNotFull(m: Bitmap, word: nat, count: nat)
    requires word < count / 32 && count <= MAX_REQUIRED_FIELDS && m[word] != ALL_BITS
    ensures !ExactlyFirst(m, count)
  {
    var k :| 0 <= k < 32 && !m[word][k];
    assert (32 * word + k) / 32 == word && (32 * word + k) % 32 == k;
    assert !IsSet(m, 32 * word + k);
  }

  lemma LastWord(m: Bitmap, count: nat)
    requires count <= MAX_REQUIRED_FIELDS && count % 32 != 0
    requires forall i :: 0 <= i < count / 32 * 32 ==> IsSet(m, i)
    ensures ExactlyFirst(m, count) <==> m[count / 32] == ShiftRight(ALL_BITS, 32 - count % 32)
  {
    var word, n := count / 32, count % 32;
    var mask := ShiftRight(ALL_BITS, 32 - n);
    assert forall k :: 0 <= k < 32 ==> (mask[k] <==> k < n);
    forall k | 0 <= k < 32 ensures IsSet(m, 32 * word + k) <==> m[word][k] {
      assert (32 * word + k) / 32 == word && (32 * word + k) % 32 == k;
    }
    if ExactlyFirst(m, count) {
      assert forall k :: 0 <= k < 32 ==> (m[word][k] <==> IsSet(m, 32 * word + k));
      assert m[word] == mask;
    }
    if m[word] == mask {
      forall i | 0 <= i < (count + 31) / 32 * 32 ensures IsSet(m, i) <==> i < count {
        if i >= 32 * word {
          assert IsSet(m, 32 * word + (i - 32 * word)) <==> mask[i - 32 * word];
        }
      }
    }
  }

  /** No field beyond the required ones is ever marked, so the mask comparison
      asks for the required fields and nothing else. */
  lemma CheckIsAllSeen(d: Descriptor, m: Bitmap, seen: set<nat>, count: nat)
    requires Marks(m, seen) && forall i :: i in seen ==> i < RequiredBefore(d, |d.fields|)
    requires var all := RequiredBefore(d, |d.fields|);
      count == if all > MAX_REQUIRED_FIELDS then MAX_REQUIRED_FIELDS else all
    ensures ExactlyFirst(m, count) <==> AllSeen(d, seen)
  {
    if AllSeen(d, seen) {
      forall i | 0 <= i < (count + 31) / 32 * 32 ensures IsSet(m, i) <==> i < count {
      }
    } else {
      var i :| 0 <= i < count && i !in seen;
      assert !IsSet(m, i);
    }
  }

  /** `pb_decode_noinit`: reading records until the input ends. */
  method DecodeNoInit(d: Descriptor, input: Bytes, start: seq<Slot>) returns (r: Option<seq<Slot>>)
    requires DistinctTags(d) && |start| == |d.fields|
    ensures r == Decode(d, input, start)
  {
    var iter := new FieldIter(d);
    var b, slots, bitmap: Bitmap := input, start, seq(SEEN_WORDS, _ => NO_BITS);
    ghost var seen: set<nat> := {};
    while b != []
      invariant iter.Valid() && iter.d == d && |slots| == |d.fields|
      invariant Marks(bitmap, seen) && forall i :: i in seen ==> i < RequiredBefore(d, |d.fields|)
      invariant DecodeFields(d, b, Progress(slots, seen)) == DecodeFields(d, input, Progress(start, {}))
      decreases |b|
    {
      var temp := DecodeVarint32(b);
      if temp.None? {
        return None;
      }
      if temp.value.value == 0 {
        break;
      }
      var tag, wireType, rest := temp.value.value / 8, temp.value.value % 8, temp.value.rest;
      var found := iter.FindTag(tag);
      if !found || d.fields == [] {
        var skipped := if found then SkipBool(rest) else SkipField(wireType, rest);
        if skipped.None? {
          return None;
        }
        b := skipped.value;
      } else {
        var i := iter.pos;
        if iter.IsRequired() && iter.requiredIndex < MAX_REQUIRED_FIELDS {
          RequiredIndexGrows(d, i, |d.fields|);
          SetBitMarks(bitmap, seen, iter.requiredIndex);
          bitmap := SetBit(bitmap, iter.requiredIndex);
          seen := seen + {iter.requiredIndex};
        }
        var slot := DecodeSlot(d.fields[i], wireType, rest, slots[i]);
        if slot.None? {
          return None;
        }
        slots := Store(d, slots, i, slot.value.value);
        b := slot.value.rest;
      }
    }
    var count := iter.CountRequired();
    if count > MAX_REQUIRED_FIELDS {
      count := MAX_REQUIRED_FIELDS;
    }
    CheckIsAllSeen(d, bitmap, seen, count);
    var complete := CheckSeen(bitmap, count);
    r := if complete then Some(slots) else None;
  }
}
