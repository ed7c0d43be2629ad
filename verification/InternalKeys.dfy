/** Internal keys, database entries and the plain meaning of a read.

  A user key is represented by its rank in the user comparator: a scenario
  involves finitely many keys, and on those any total order is an order of
  ranks.  Modules that look inside key strings (`Coding`, `IndexKeys`, ...)
  use byte strings instead.
 */
module InternalKeys {

  type Byte = x: int | 0 <= x < 256
  type Bytes = seq<Byte>
  type UserKey = int

  const NUM_LEVELS: nat := 7

  /** Sequence numbers share a 64-bit word with an 8-bit type. */
  const MAX_SEQUENCE: nat := 0xFF_FFFF_FFFF_FFFF

  type SequenceNumber = n: nat | n <= MAX_SEQUENCE

  datatype Option<+T> = None | Some(value: T)

  datatype ValueType = TypeDeletion | TypeValue

  datatype InternalKey = InternalKey(user: UserKey, sequence: SequenceNumber, kind: ValueType)

  datatype Entry = Entry(key: InternalKey, value: Bytes)

  function TypeCode(kind: ValueType): nat {
    if kind.TypeValue? then 1 else 0
  }

  function PackSequenceAndType(sequence: SequenceNumber, kind: ValueType): nat {
    sequence * 256 + TypeCode(kind)
  }

  /** The three-way comparison of `InternalKeyComparator`: user key first, then
      the packed 64-bit tag in decreasing order. */
  function Compare(a: InternalKey, b: InternalKey): int {
    if a.user < b.user then -1
    else if a.user > b.user then 1
    else
      var anum := PackSequenceAndType(a.sequence, a.kind);
      var bnum := PackSequenceAndType(b.sequence, b.kind);
      if anum > bnum then -1 else if anum < bnum then 1 else 0
  }

  /** `a` sorts strictly before `b`: user key ascending, sequence number
      descending, type descending. */
  predicate Before(a: InternalKey, b: InternalKey) {
    || a.user < b.user
    || (a.user == b.user && a.sequence > b.sequence)
    || (a.user == b.user && a.sequence == b.sequence && a.kind.TypeValue? && b.kind.TypeDeletion?)
  }

  /** Comparing packed tags is the lexicographic order on (sequence, type), and
      only equal keys compare equal. */
  lemma CompareIsBefore(a: InternalKey, b: InternalKey)
    ensures Compare(a, b) < 0 <==> Before(a, b)
    ensures Compare(a, b) > 0 <==> Before(b, a)
    ensures Compare(a, b) == 0 <==> a == b
  {
    if a.user == b.user && a.sequence < b.sequence {
      assert PackSequenceAndType(a.sequence, a.kind) < PackSequenceAndType(b.sequence, b.kind);
    } else if a.user == b.user && a.sequence > b.sequence {
      assert PackSequenceAndType(a.sequence, a.kind) > PackSequenceAndType(b.sequence, b.kind);
    }
  }

  /** The key a lookup of `user` at snapshot `sequence` seeks to. */
  function LookupKey(user: UserKey, sequence: SequenceNumber): InternalKey {
    InternalKey(user, sequence, TypeValue)
  }

  predicate Sorted(es: seq<Entry>) {
    forall i, j :: 0 <= i < j < |es| ==> Before(es[i].key, es[j].key)
  }

  function Elements(es: seq<Entry>): set<Entry> {
    set e | e in es
  }

  // ---------------------------------------------------------------------
  // The meaning of a read
  // ---------------------------------------------------------------------

  /** `e` is an entry of `user` that a reader at snapshot `s` may see. */
  predicate Visible(e: Entry, user: UserKey, s: SequenceNumber) {
    e.key.user == user && e.key.sequence <= s
  }

  /** No two entries of one user key share a sequence number. */
  ghost predicate UniqueSequences(db: set<Entry>) {
    forall a, b :: a in db && b in db && a.key.user == b.key.user && a.key.sequence == b.key.sequence ==> a == b
  }

  /** `e` is the newest entry of `user` at snapshot `s`. */
  ghost predicate IsNewest(db: set<Entry>, user: UserKey, s: SequenceNumber, e: Entry) {
    && e in db
    && Visible(e, user, s)
    && forall o :: o in db && Visible(o, user, s) ==> o.key.sequence <= e.key.sequence
  }

  ghost predicate NoneVisible(db: set<Entry>, user: UserKey, s: SequenceNumber) {
    forall o :: o in db ==> !Visible(o, user, s)
  }

  /** The newest entry of `user` at `s`, if there is one. */
  ghost predicate FindsNewest(db: set<Entry>, user: UserKey, s: SequenceNumber, r: Option<Entry>) {
    match r
    case Some(e) => IsNewest(db, user, s, e)
    case None => NoneVisible(db, user, s)
  }

  /** What a reader at `s` is told about `user`: the newest value, or not
      found when the newest entry is a deletion or there is none. */
  ghost predicate Reads(db: set<Entry>, user: UserKey, s: SequenceNumber, r: Option<Bytes>) {
    match r
    case Some(v) => exists e :: IsNewest(db, user, s, e) && e.key.kind == TypeValue && e.value == v
    case None => forall e :: IsNewest(db, user, s, e) ==> e.key.kind == TypeDeletion
  }

  function ResultOf(newest: Option<Entry>): Option<Bytes> {
    if newest.Some? && newest.value.key.kind == TypeValue then Some(newest.value.value) else None
  }

  /** `before` and `after` answer every read of `user` at `s` alike. */
  ghost predicate SameRead(before: set<Entry>, after: set<Entry>, user: UserKey, s: SequenceNumber) {
    forall r :: Reads(before, user, s, r) <==> Reads(after, user, s, r)
  }

  /** In a database with unique sequence numbers a read has one answer. */
  lemma NewestExists(db: set<Entry>, user: UserKey, s: SequenceNumber) returns (r: Option<Entry>)
    ensures FindsNewest(db, user, s, r)
    decreases |db|
  {
    if NoneVisible(db, user, s) {
      r := None;
    } else {
      var e :| e in db && Visible(e, user, s);
      var rest := db - {e};
      var r' := NewestExists(rest, user, s);
      if r'.Some? && r'.value.key.sequence > e.key.sequence {
        r := r';
      } else {
        r := Some(e);
      }
      forall o | o in db && Visible(o, user, s)
        ensures o.key.sequence <= r.value.key.sequence
      {
        assert o in rest || o == e;
      }
    }
  }

  lemma ReadIsResult(db: set<Entry>, user: UserKey, s: SequenceNumber, newest: Option<Entry>)
    requires UniqueSequences(db)
    requires FindsNewest(db, user, s, newest)
    ensures forall r :: Reads(db, user, s, r) <==> r == ResultOf(newest)
  {
    forall r ensures Reads(db, user, s, r) <==> r == ResultOf(newest) {
      if newest.Some? {
        assert IsNewest(db, user, s, newest.value);
      }
    }
  }
}
