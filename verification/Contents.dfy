/** The database as a plain map: what the writes of a run add up to is what
    reads find, now and at every live snapshot. */
module Contents {
  import opened InternalKeys
  import opened Runs

  type Content = map<UserKey, Bytes>

  function Apply(m: Content, op: Operation): Content {
    if op.kind.TypeValue? then m[op.user := op.value] else m - {op.user}
  }

  function ApplyAll(m: Content, batch: seq<Operation>): Content {
    if batch == [] then m else Apply(ApplyAll(m, batch[..|batch| - 1]), batch[|batch| - 1])
  }

  /** What has been put and not deleted since; nothing but writes counts. */
  function ContentOf(actions: seq<Action>): Content {
    if actions == [] then map[]
    else
      var before := ContentOf(actions[..|actions| - 1]);
      match actions[|actions| - 1]
      case Write(batch) => ApplyAll(before, batch)
      case _ => before
  }

  function Find(m: Content, user: UserKey): Option<Bytes> {
    if user in m then Some(m[user]) else None
  }

  /** At `q` a read of `user` finds what `m` holds. */
  ghost predicate Holds(entries: set<Entry>, q: SequenceNumber, m: Content, user: UserKey) {
    forall r :: Reads(entries, user, q, r) <==> r == Find(m, user)
  }

  // ---------------------------------------------------------------------
  // One write
  // ---------------------------------------------------------------------

  function EntryOf(op: Operation, sequence: SequenceNumber): Entry {
    Entry(InternalKey(op.user, sequence, op.kind), op.value)
  }

  /** No entry is newer. */
  ghost predicate UpTo(entries: set<Entry>, q: SequenceNumber) {
    forall e :: e in entries ==> e.key.sequence <= q
  }

  lemma NewestIsRead(entries: set<Entry>, q: SequenceNumber, user: UserKey, e: Entry)
    requires forall x :: IsNewest(entries, user, q, x) <==> x == e
    ensures forall r :: Reads(entries, user, q, r) <==> r == ResultOf(Some(e))
  {
    assert IsNewest(entries, user, q, e);
  }

  /** Entries that a reader does not see change nothing for him. */
  lemma UnseenAdded(entries: set<Entry>, added: set<Entry>, q: SequenceNumber, q': SequenceNumber, user: UserKey)
    requires q <= q' && UpTo(entries, q) && forall e :: e in added ==> !Visible(e, user, q')
    ensures forall r :: Reads(entries + added, user, q', r) <==> Reads(entries, user, q, r)
  {
    forall x ensures IsNewest(entries + added, user, q', x) <==> IsNewest(entries, user, q, x) {
      assert x in entries ==> (Visible(x, user, q') <==> Visible(x, user, q));
    }
  }

  lemma OperationHolds(entries: set<Entry>, q: SequenceNumber, m: Content, op: Operation, user: UserKey)
    requires q < MAX_SEQUENCE && UpTo(entries, q) && Holds(entries, q, m, user)
    ensures UpTo(entries + {EntryOf(op, q + 1)}, q + 1)
    ensures Holds(entries + {EntryOf(op, q + 1)}, q + 1, Apply(m, op), user)
  {
    var e := EntryOf(op, q + 1);
    if op.user == user {
      var all, q' := entries + {e}, q + 1;
      forall x ensures IsNewest(all, user, q', x) <==> x == e {
        assert Visible(e, user, q');
      }
      NewestIsRead(all, q', user, e);
    } else {
      UnseenAdded(entries, {e}, q, q + 1, user);
    }
  }

  lemma LastOfBatch(batch: seq<Operation>, last: SequenceNumber)
    requires batch != [] && last + |batch| <= MAX_SEQUENCE
    ensures var n := |batch| - 1;
      Elements(BatchEntries(batch, last))
      == Elements(BatchEntries(batch[..n], last)) + {EntryOf(batch[n], last + n + 1)}
  {
    var n := |batch| - 1;
    assert BatchEntries(batch, last) == BatchEntries(batch[..n], last) + [EntryOf(batch[n], last + n + 1)];
  }

  /** The operations of a batch take effect in order. */
  lemma {:induction false} BatchHolds(entries: set<Entry>, q: SequenceNumber, m: Content, batch: seq<Operation>,
                                      user: UserKey)
    requires q + |batch| <= MAX_SEQUENCE && UpTo(entries, q) && Holds(entries, q, m, user)
    ensures UpTo(entries + Elements(BatchEntries(batch, q)), q + |batch|)
    ensures Holds(entries + Elements(BatchEntries(batch, q)), q + |batch|, ApplyAll(m, batch), user)
    decreases |batch|
  {
    if batch == [] {
      assert entries + Elements(BatchEntries(batch, q)) == entries;
    } else {
      var n := |batch| - 1;
      var before := entries + Elements(BatchEntries(batch[..n], q));
      BatchHolds(entries, q, m, batch[..n], user);
      OperationHolds(before, q + n, ApplyAll(m, batch[..n]), batch[n], user);
      LastOfBatch(batch, q);
      assert entries + Elements(BatchEntries(batch, q)) == before + {EntryOf(batch[n], q + n + 1)};
    }
  }

  // ---------------------------------------------------------------------
  // Every run
  // ---------------------------------------------------------------------

  /** Only a write changes the history, and it only adds newer entries. */
  lemma StepAndHistory(s: State, a: Action, s': State)
    requires Inv(s) && Step(s, a, s')
    ensures if a.Write? then
              && s.lastSequence + |a.batch| < MAX_SEQUENCE
              && s'.lastSequence == s.lastSequence + |a.batch|
              && s'.history == s.history + Elements(BatchEntries(a.batch, s.lastSequence))
            else s'.history == s.history && s'.lastSequence == s.lastSequence
  {
  }

  /** The history says what the writes add up to. */
  lemma {:induction false} HistoryHolds(states: seq<State>, actions: seq<Action>, i: nat, user: UserKey)
    requires IsRun(states, actions) && i < |states|
    ensures Holds(states[i].history, states[i].lastSequence, ContentOf(actions[..i]), user)
  {
    if i > 0 {
      var s, a := states[i - 1], actions[i - 1];
      RunKeepsInv(states, actions, i - 1);
      HistoryHolds(states, actions, i - 1, user);
      assert StepAt(states, actions, i - 1) && actions[..i][..i - 1] == actions[..i - 1];
      StepAndHistory(s, a, states[i]);
      if a.Write? {
        BatchHolds(s.history, s.lastSequence, ContentOf(actions[..i - 1]), a.batch, user);
      }
    }
  }

  ghost predicate SeesThen(states: seq<State>, j: nat, i: nat, user: UserKey)
    requires j < |states| && i < |states|
  {
    && states[j].lastSequence <= states[i].lastSequence
    && SameRead(states[j].history, states[i].history, user, states[j].lastSequence)
  }

  /** Later writes do not change what was there at an earlier sequence number. */
  lemma {:induction false} PastStays(states: seq<State>, actions: seq<Action>, j: nat, i: nat, user: UserKey)
    requires IsRun(states, actions) && j <= i < |states|
    ensures SeesThen(states, j, i, user)
    decreases i
  {
    if j < i {
      var s, a, q := states[i - 1], actions[i - 1], states[j].lastSequence;
      PastStays(states, actions, j, i - 1, user);
      RunKeepsInv(states, actions, i - 1);
      assert StepAt(states, actions, i - 1);
      StepAndHistory(s, a, states[i]);
      if a.Write? {
        BatchIsFresh(a.batch, s.lastSequence);
        NewerUnseen(s.history, Elements(BatchEntries(a.batch, s.lastSequence)), q, user);
      }
    }
  }

  lemma NewerUnseen(entries: set<Entry>, added: set<Entry>, q: SequenceNumber, user: UserKey)
    requires forall e :: e in added ==> q < e.key.sequence
    ensures SameRead(entries, entries + added, user, q)
  {
    forall x ensures IsNewest(entries + added, user, q, x) <==> IsNewest(entries, user, q, x) {
    }
  }

  /** A live snapshot was taken at some point of the run. */
  lemma {:induction false} WasTaken(states: seq<State>, actions: seq<Action>, i: nat, q: SequenceNumber)
    returns (j: nat)
    requires IsRun(states, actions) && i < |states| && q in states[i].snapshots
    ensures j < i && actions[j].NewSnapshot? && states[j].lastSequence == q
  {
    assert i > 0;
    assert StepAt(states, actions, i - 1);
    if q in states[i - 1].snapshots {
      j := WasTaken(states, actions, i - 1, q);
    } else {
      j := i - 1;
    }
  }

  /** In every run, a key that no compaction exposed reads as the map that the
      writes so far add up to. */
  lemma DatabaseIsMap(states: seq<State>, actions: seq<Action>, i: nat, user: UserKey)
    requires IsRun(states, actions) && i < |states| && NeverExposed(states, actions, i, user)
    ensures Holds(Db(states[i]), states[i].lastSequence, ContentOf(actions[..i]), user)
  {
    HistoryHolds(states, actions, i, user);
    LiveSnapshotsSeeHistory(states, actions, i, user, states[i].lastSequence);
  }

  /** And at a live snapshot as the map of the writes before it was taken. */
  lemma SnapshotIsMap(states: seq<State>, actions: seq<Action>, i: nat, q: SequenceNumber, user: UserKey)
    returns (j: nat)
    requires IsRun(states, actions) && i < |states| && NeverExposed(states, actions, i, user)
    requires q in states[i].snapshots
    ensures j < i && actions[j].NewSnapshot? && states[j].lastSequence == q
    ensures Holds(Db(states[i]), q, ContentOf(actions[..j]), user)
  {
    j := WasTaken(states, actions, i, q);
    HistoryHolds(states, actions, j, user);
    PastStays(states, actions, j, i, user);
    LiveSnapshotsSeeHistory(states, actions, i, user, q);
  }
}
