/** Encoded internal keys, their order as a rank, and the short keys that
    separate the blocks of a table. */
module IndexKeys {
  import opened InternalKeys
  import opened Coding
  import opened Blocks

  // ---------------------------------------------------------------------
  // The bytewise order
  // ---------------------------------------------------------------------

  /** Lexicographic order; a proper prefix comes first. */
  predicate BytesLess(a: Bytes, b: Bytes) {
    b != [] && (a == [] || a[0] < b[0] || (a[0] == b[0] && BytesLess(a[1..], b[1..])))
  }

  /** At the first difference the smaller byte decides. */
  lemma {:induction false} LessAtDifference(a: Bytes, b: Bytes, d: nat)
    requires d < |a| && d < |b| && a[..d] == b[..d] && a[d] < b[d]
    ensures BytesLess(a, b)
  {
    if d > 0 {
      assert a[0] == a[..d][0] == b[..d][0] == b[0];
      assert a[1..][..d - 1] == a[..d][1..] && b[1..][..d - 1] == b[..d][1..];
      LessAtDifference(a[1..], b[1..], d - 1);
    }
  }

  /** A byte string as a base-257 fraction, with `end` in [0, 1) standing for
      what follows it. */
  function Fraction(u: Bytes, end: real): real {
    if u == [] then end / 257.0 else (u[0] as real + 1.0 + Fraction(u[1..], end)) / 257.0
  }

  lemma {:induction false} FractionBounds(u: Bytes, end: real)
    requires 0.0 <= end < 1.0
    ensures 0.0 <= Fraction(u, end) < 1.0
    ensures u == [] ==> Fraction(u, end) * 257.0 == end
    ensures u != [] ==> u[0] as real + 1.0 <= Fraction(u, end) * 257.0 < u[0] as real + 2.0
  {
    if u != [] {
      FractionBounds(u[1..], end);
    }
  }

  /** Fractions order strings bytewise, and equal strings by what follows. */
  lemma {:induction false} FractionOrder(a: Bytes, enda: real, b: Bytes, endb: real)
    requires 0.0 <= enda < 1.0 && 0.0 <= endb < 1.0
    ensures Fraction(a, enda) < Fraction(b, endb) <==> BytesLess(a, b) || (a == b && enda < endb)
    decreases |a|
  {
    FractionBounds(a, enda);
    FractionBounds(b, endb);
    if a != [] && b != [] && a[0] == b[0] {
      FractionOrder(a[1..], enda, b[1..], endb);
      assert a == [a[0]] + a[1..] && b == [b[0]] + b[1..];
      assert a[1..] == b[1..] ==> a == b;
    }
  }

  // ---------------------------------------------------------------------
  // Encoded internal keys
  // ---------------------------------------------------------------------

  const TAGS: nat := WORD64

  /** kMaxSequenceNumber with kValueTypeForSeek. */
  const MAX_TAG: Word64 := MAX_SEQUENCE * 256 + 1

  function UserOf(key: Bytes): Bytes {
    if |key| < 8 then [] else key[..|key| - 8]
  }

  function TagOf(key: Bytes): Word64 {
    if |key| < 8 then 0 else DecodeFixed64(key[|key| - 8..])
  }

  function EncodeInternal(user: Bytes, tag: Word64): (key: Bytes)
    ensures |key| == |user| + 8 && UserOf(key) == user
  {
    user + EncodeFixed64(tag)
  }

  lemma TagOfEncoded(user: Bytes, tag: Word64)
    ensures TagOf(EncodeInternal(user, tag)) == tag
  {
    assert EncodeInternal(user, tag)[|user|..] == EncodeFixed64(tag) + [];
    Fixed64RoundTrip(tag, []);
  }

  /** `InternalKeyComparator`: user key ascending, then tag descending. */
  predicate InternalLess(a: Bytes, b: Bytes) {
    BytesLess(UserOf(a), UserOf(b)) || (UserOf(a) == UserOf(b) && TagOf(a) > TagOf(b))
  }

  function TagFraction(tag: Word64): (r: real)
    ensures 0.0 <= r < 1.0
  {
    (TAGS - 1 - tag) as real / TAGS as real
  }

  function InternalRank(key: Bytes): real {
    Fraction(UserOf(key), TagFraction(TagOf(key)))
  }

  lemma InternalRankOrder(a: Bytes, b: Bytes)
    ensures InternalRank(a) < InternalRank(b) <==> InternalLess(a, b)
  {
    FractionOrder(UserOf(a), TagFraction(TagOf(a)), UserOf(b), TagFraction(TagOf(b)));
  }

  /** Bytewise order is a strict total order. */
  lemma {:induction false} BytesLessTotal(a: Bytes, b: Bytes)
    ensures BytesLess(a, b) || a == b || BytesLess(b, a)
    ensures !(BytesLess(a, b) && BytesLess(b, a)) && !(a == b && BytesLess(a, b))
    decreases |a|
  {
    if a != [] && b != [] && a[0] == b[0] {
      BytesLessTotal(a[1..], b[1..]);
      assert a == [a[0]] + a[1..] && b == [b[0]] + b[1..];
    }
  }

  lemma BytesLessTransitive(a: Bytes, b: Bytes, c: Bytes)
    requires BytesLess(a, b) && BytesLess(b, c)
    ensures BytesLess(a, c)
  {
    FractionOrder(a, 0.0, b, 0.0);
    FractionOrder(b, 0.0, c, 0.0);
    FractionOrder(a, 0.0, c, 0.0);
  }

  // ---------------------------------------------------------------------
  // Separators
  // ---------------------------------------------------------------------

  /** A short string from `start` on and before `limit`. */
  function Separator(start: Bytes, limit: Bytes): Bytes {
    var d := CommonPrefix(start, limit);
    if d < |start| && d < |limit| && start[d] < 0xff && start[d] + 1 < limit[d] then start[..d] + [start[d] + 1]
    else start
  }

  method FindShortestSeparator(start: Bytes, limit: Bytes) returns (r: Bytes)
    ensures r == Separator(start, limit)
  {
    r := start;
    var minLength := if |start| < |limit| then |start| else |limit|;
    var diffIndex := 0;
    while diffIndex < minLength && start[diffIndex] == limit[diffIndex]
      invariant diffIndex <= minLength && start[..diffIndex] == limit[..diffIndex]
    {
      diffIndex := diffIndex + 1;
    }
    CommonPrefixIsUnique(start, limit, diffIndex);
    if diffIndex >= minLength {
    } else {
      var diffByte := start[diffIndex];
      if diffByte < 0xff && diffByte + 1 < limit[diffIndex] {
        r := r[diffIndex := diffByte + 1];
        r := r[..diffIndex + 1];
      }
    }
  }

  /** It is the start itself or lies strictly between. */
  lemma SeparatorIsBetween(start: Bytes, limit: Bytes)
    ensures var r := Separator(start, limit);
      r == start || (BytesLess(start, r) && BytesLess(r, limit))
  {
    var r := Separator(start, limit);
    var d := CommonPrefix(start, limit);
    if r != start {
      assert r[..d] == start[..d];
      LessAtDifference(start, r, d);
      LessAtDifference(r, limit, d);
    }
  }

  /** A string between two that share their first `d` bytes is longer than that. */
  lemma {:induction false} BetweenIsLonger(start: Bytes, x: Bytes, limit: Bytes, d: nat)
    requires d < |start| && d < |limit| && start[..d] == limit[..d]
    requires BytesLess(x, limit) && (x == start || BytesLess(start, x))
    ensures |x| > d
  {
    if d > 0 && x != [] {
      assert start[0] == start[..d][0] == limit[..d][0] == limit[0];
      assert start[1..][..d - 1] == start[..d][1..] && limit[1..][..d - 1] == limit[..d][1..];
      BetweenIsLonger(start[1..], x[1..], limit[1..], d - 1);
    }
  }

  /** If the code changes the start at all, nothing shorter lies between. */
  lemma SeparatorIsShortest(start: Bytes, x: Bytes, limit: Bytes)
    requires Separator(start, limit) != start
    requires BytesLess(x, limit) && (x == start || BytesLess(start, x))
    ensures |Separator(start, limit)| <= |x|
  {
    BetweenIsLonger(start, x, limit, CommonPrefix(start, limit));
  }

  /** At `d` the strings part in bytes that are next to each other. */
  predicate PartsByOneAt(start: Bytes, limit: Bytes, d: nat) {
    && d < |start| && d < |limit| && start[..d] == limit[..d]
    && start[d] as int + 1 == limit[d] as int
  }

  ghost predicate PartsByOne(start: Bytes, limit: Bytes) {
    exists d :: PartsByOneAt(start, limit, d)
  }

  lemma PartsOnce(start: Bytes, limit: Bytes)
    requires PartsByOne(start, limit)
    ensures PartsByOneAt(start, limit, CommonPrefix(start, limit))
  {
    var e :| PartsByOneAt(start, limit, e);
    CommonPrefixIsUnique(start, limit, e);
  }

  lemma ChangedAt(start: Bytes, limit: Bytes, d: nat)
    requires d == CommonPrefix(start, limit) && d < |start| && d < |limit| && start[d] < limit[d]
    ensures Separator(start, limit) == start <==> PartsByOneAt(start, limit, d)
  {
    var r := start[..d] + [if start[d] < 0xff then start[d] + 1 else 0];
    assert r[d] != start[d];
  }

  /** The start stays as it is exactly when it is a prefix of the limit, or the
      first difference leaves no byte between. */
  lemma SeparatorChangesIff(start: Bytes, limit: Bytes)
    requires BytesLess(start, limit)
    ensures Separator(start, limit) == start <==> start <= limit || PartsByOne(start, limit)
  {
    var d := CommonPrefix(start, limit);
    if d < |start| && d < |limit| {
      LessIsFirstDifference(start, limit, d);
      ChangedAt(start, limit, d);
      if PartsByOne(start, limit) {
        PartsOnce(start, limit);
      }
      NotAPrefix(start, limit, d);
    } else if d == |limit| {
      BytesLessTotal(start, limit);
      PrefixIsLess(limit, start);
    }
  }

  lemma NotAPrefix(a: Bytes, b: Bytes, d: nat)
    requires d < |a| && d < |b| && a[d] != b[d]
    ensures !(a <= b)
  {
  }

  lemma {:induction false} PrefixIsLess(a: Bytes, b: Bytes)
    requires a <= b
    ensures a == b || BytesLess(a, b)
  {
    if a != [] {
      PrefixIsLess(a[1..], b[1..]);
      assert a == [a[0]] + a[1..] && b == [b[0]] + b[1..];
    }
  }

  lemma LessIsFirstDifference(a: Bytes, b: Bytes, d: nat)
    requires d < |a| && d < |b| && a[..d] == b[..d] && a[d] != b[d] && BytesLess(a, b)
    ensures a[d] < b[d]
  {
    if b[d] < a[d] {
      LessAtDifference(b, a, d);
      BytesLessTotal(a, b);
    }
  }

  /** The first byte below 0xff is incremented and ends the string. */
  function ShortSuccessor(key: Bytes): Bytes {
    if key == [] then []
    else if key[0] != 0xff then [key[0] + 1]
    else
      var rest := ShortSuccessor(key[1..]);
      [key[0]] + rest
  }

  lemma SuccessorAt(key: Bytes, i: nat)
    requires i < |key|
    ensures key[i] != 0xff ==> key[..i] + ShortSuccessor(key[i..]) == key[i := key[i] + 1][..i + 1]
    ensures key[i] == 0xff ==>
      key[..i] + ShortSuccessor(key[i..]) == key[..i + 1] + ShortSuccessor(key[i + 1..])
  {
    assert key[i..][1..] == key[i + 1..] && key[..i + 1] == key[..i] + [key[i]];
    Regroup(key[..i], [key[i]], ShortSuccessor(key[i + 1..]));
  }

  method FindShortSuccessor(key: Bytes) returns (r: Bytes)
    ensures r == ShortSuccessor(key)
  {
    for i := 0 to |key|
      invariant ShortSuccessor(key) == key[..i] + ShortSuccessor(key[i..])
    {
      SuccessorAt(key, i);
      if key[i] != 0xff {
        r := key[i := key[i] + 1];
        r := r[..i + 1];
        return;
      }
    }
    assert key[..|key|] == key && key[|key|..] == [];
    r := key;
  }

  lemma {:induction false} ShortSuccessorIsAfter(key: Bytes)
    ensures ShortSuccessor(key) == key || BytesLess(key, ShortSuccessor(key))
  {
    if key != [] && key[0] == 0xff {
      ShortSuccessorIsAfter(key[1..]);
      assert ([key[0]] + ShortSuccessor(key[1..]))[1..] == ShortSuccessor(key[1..]);
      assert key == [key[0]] + key[1..];
    }
  }

  /** No shorter string is at or after the key. */
  lemma {:induction false} ShortSuccessorIsShortest(key: Bytes, x: Bytes)
    requires x == key || BytesLess(key, x)
    ensures |ShortSuccessor(key)| <= |x|
  {
    if key != [] && key[0] == 0xff {
      ShortSuccessorIsShortest(key[1..], x[1..]);
    }
  }

  /** The internal comparator's separator: a shorter user key with the earliest
      tag, or the start itself. */
  function InternalSeparator(start: Bytes, limit: Bytes): (r: Bytes)
    ensures |r| <= |start|
  {
    var user := UserOf(start);
    var tmp := Separator(user, UserOf(limit));
    if |tmp| < |user| && BytesLess(user, tmp) then EncodeInternal(tmp, MAX_TAG) else start
  }

  function InternalSuccessor(key: Bytes): (r: Bytes)
    ensures |r| <= |key|
  {
    var user := UserOf(key);
    var tmp := ShortSuccessor(user);
    if |tmp| < |user| && BytesLess(user, tmp) then EncodeInternal(tmp, MAX_TAG) else key
  }

  /** `r` replaces the last key of a block, before a block that starts at
      `limit`: it is that key, or its user key lies strictly between. */
  predicate Separates(start: Bytes, r: Bytes, limit: Bytes) {
    r == start || (BytesLess(UserOf(start), UserOf(r)) && BytesLess(UserOf(r), UserOf(limit)))
  }

  lemma InternalSeparatorSeparates(start: Bytes, limit: Bytes)
    ensures Separates(start, InternalSeparator(start, limit), limit)
  {
    SeparatorIsBetween(UserOf(start), UserOf(limit));
  }

  /** It is the start, or shorter, and then a user key under the largest tag a search
      can have; and shorter whenever the separator of the user keys is. */
  lemma InternalSeparatorIsShorter(start: Bytes, limit: Bytes)
    ensures var r := InternalSeparator(start, limit);
      && (r == start || (|r| < |start| && TagOf(r) == 18446744073709551361))
      && (r != start <==> |Separator(UserOf(start), UserOf(limit))| < |UserOf(start)|)
  {
    var user := Separator(UserOf(start), UserOf(limit));
    SeparatorIsBetween(UserOf(start), UserOf(limit));
    TagOfEncoded(user, MAX_TAG);
  }

  lemma InternalSuccessorIsAfter(key: Bytes)
    ensures var r := InternalSuccessor(key); r == key || BytesLess(UserOf(key), UserOf(r))
  {
    ShortSuccessorIsAfter(UserOf(key));
  }

  /** So it is at or after everything in the block and before everything in the next. */
  lemma SeparatorOrder(start: Bytes, r: Bytes, limit: Bytes)
    requires Separates(start, r, limit) && InternalLess(start, limit)
    ensures InternalRank(start) <= InternalRank(r) < InternalRank(limit)
  {
    InternalRankOrder(start, r);
    InternalRankOrder(r, limit);
    InternalRankOrder(start, limit);
  }
}
