/** Reopening after a crash: the log file, cut off at any byte, replayed into a
    memtable, against the groups of writers that were committed to it. */
module CrashRecoveries {
  import opened InternalKeys
  import opened Coding
  import Batches = WriteBatches
  import Logs
  import opened LogReaders
  import Groups = GroupCommits

  type Record = Batches.Record
  type LogRecord = Groups.LogRecord

  /** Limits of the format: a 64-bit sequence number and a 32-bit count. */
  predicate Writable(r: LogRecord) {
    1 <= r.first && r.first + |r.ops| < WORD64 && |r.ops| < WORD32 && Batches.AllEncodable(r.ops)
  }

  predicate AllWritable(log: seq<LogRecord>) {
    forall i :: 0 <= i < |log| ==> Writable(log[i])
  }

  /** The records as the log file holds them. */
  function Written(log: seq<LogRecord>): (r: seq<Bytes>)
    requires AllWritable(log)
    ensures |r| == |log| && forall i :: 0 <= i < |r| ==> r[i] == Batches.Contents(log[i].first, log[i].ops)
  {
    seq(|log|, i requires 0 <= i < |log| => Batches.Contents(log[i].first, log[i].ops))
  }

  /** Replaying one record of the log. */
  lemma RecordReplays(r: LogRecord)
    requires Writable(r)
    ensures var rep := Batches.Contents(r.first, r.ops);
      && |rep| >= Batches.HEADER_SIZE
      && DecodeFixed64(rep) == r.first && DecodeFixed32(rep[8..]) == |r.ops|
      && Batches.DecodeOperations(rep[12..]) == Batches.Iterated(r.ops, true)
  {
    Batches.HeaderFields(r.first, |r.ops|, Batches.EncodeOperations(r.ops));
    Batches.OperationsRoundTrip(r.ops);
  }

  /** The largest sequence number that the first `n` records use up. */
  function LastSequence(log: seq<LogRecord>, n: nat): nat
    requires n <= |log|
  {
    if n == 0 then 0
    else
      var before, last := LastSequence(log, n - 1), log[n - 1].first + |log[n - 1].ops|;
      if last > before + 1 then last - 1 else before
  }

  /** So many records have been replayed. */
  ghost predicate Replayed(log: seq<LogRecord>, n: nat, mem: seq<Record>, maxSequence: nat) {
    && n <= |log|
    && mem == Groups.ReplayAll(log[..n])
    && maxSequence == LastSequence(log, n)
  }

  lemma OneMoreReplayed(log: seq<LogRecord>, n: nat, mem: seq<Record>, maxSequence: nat)
    requires n < |log| && Replayed(log, n, mem, maxSequence)
    ensures Groups.ReplayAll(log[..n + 1]) == mem + Batches.Records(log[n].first, log[n].ops)
  {
    assert log[..n + 1][..n] == log[..n];
  }

  /** The loop body of `RecoverLogFile` for a record that was written whole. */
  method ReplayRecord(record: Bytes, mem: seq<Record>, maxSequence: nat, ghost log: seq<LogRecord>, ghost n: nat)
    returns (ok: bool, mem': seq<Record>, maxSequence': nat)
    requires AllWritable(log) && n < |log| && record == Written(log)[n] && Replayed(log, n, mem, maxSequence)
    ensures ok && Replayed(log, n + 1, mem', maxSequence')
  {
    RecordReplays(log[n]);
    OneMoreReplayed(log, n, mem, maxSequence);
    mem', ok := Batches.Replay(record, mem);
    var lastSeq := DecodeFixed64(record) as int + DecodeFixed32(record[8..]) - 1;
    maxSequence' := if lastSeq > maxSequence then lastSeq else maxSequence;
  }

  /** From this file exactly the first `n` records were recovered: those wholly inside it. */
  ghost predicate IsRecovery(crc: Logs.Checksum, file: Bytes, log: seq<LogRecord>, n: nat, mem: seq<Record>,
                             maxSequence: nat)
    requires AllWritable(log) && n <= |log|
  {
    Replayed(log, n, mem, maxSequence) && IsRecovered(crc, file, Written(log), Written(log)[..n])
  }

  /** `RecoverLogFile`: from any byte-prefix of the log, exactly the records that
      lie wholly inside it are replayed, without an error. */
  method RecoverLogFile(crc: Logs.Checksum, file: Bytes, ghost log: seq<LogRecord>)
    returns (ok: bool, mem: seq<Record>, maxSequence: nat, ghost n: nat)
    requires AllWritable(log) && HoldsPrefix(file, 0, Logs.EncodeAll(crc, 0, Written(log)))
    ensures ok && n <= |log| && IsRecovery(crc, file, log, n, mem, maxSequence)
  {
    var records, dropped := ReadFile(crc, file, Written(log));
    n := |records|;
    ok, mem, maxSequence := true, [], 0;
    assert log[..0] == [];
    for i := 0 to |records|
      invariant ok && Replayed(log, i, mem, maxSequence)
    {
      ok, mem, maxSequence := ReplayRecord(records[i], mem, maxSequence, log, i);
    }
  }

  // ---------------------------------------------------------------------
  // What was recovered
  // ---------------------------------------------------------------------

  /** `mem` holds what the first `k` groups logged, in order and whole, and after
      all of them perhaps the group in progress. */
  ghost predicate HoldsGroups(s: Groups.State, k: nat, mem: seq<Record>) {
    && k <= |s.commits|
    && (mem == Groups.LoggedOf(s.commits[..k])
        || (k == |s.commits| && mem == Groups.LoggedOf(s.commits) + Groups.ReplayAll(Groups.LogInFlight(s))))
  }

  /** A prefix of the log is the log of a prefix of the groups. */
  lemma {:induction false} LogPrefix(commits: seq<Groups.Commit>, n: nat) returns (k: nat)
    requires n <= |Groups.LogOf(commits)|
    ensures k <= |commits| && Groups.LogOf(commits)[..n] == Groups.LogOf(commits[..k])
  {
    var log := Groups.LogOf(commits);
    if n == |log| {
      k := |commits|;
      assert commits[..k] == commits && log[..n] == log;
    } else {
      var m := |commits| - 1;
      k := LogPrefix(commits[..m], n);
      assert commits[..m][..k] == commits[..k];
      assert log[..n] == Groups.LogOf(commits[..m])[..n];
    }
  }

  /** Any number of whole log records are the records of whole groups. */
  lemma PrefixIsGroups(s: Groups.State, n: nat) returns (k: nat)
    requires Groups.Reachable(s) && n <= |s.log|
    ensures HoldsGroups(s, k, Groups.ReplayAll(s.log[..n]))
  {
    Groups.ReachableHasInv(s);
    var log := Groups.LogOf(s.commits);
    if n <= |log| {
      k := LogPrefix(s.commits, n);
      assert s.log[..n] == log[..n];
      Groups.LogReplays(s.commits[..k]);
    } else {
      k := |s.commits|;
      InFlightIsOne(s);
      assert s.log[..n] == s.log;
      Groups.LogReplaysToGroups(s);
    }
  }

  lemma InFlightIsOne(s: Groups.State)
    ensures |Groups.LogInFlight(s)| <= 1
  {
  }

  /** Whatever instant the machine stops at, and however many bytes of the log
      survive, the memtable recovered is that of whole groups, in order. */
  method Recover(crc: Logs.Checksum, file: Bytes, ghost s: Groups.State)
    returns (ok: bool, mem: seq<Record>, maxSequence: nat, ghost n: nat, ghost k: nat)
    requires Groups.Reachable(s) && AllWritable(s.log)
    requires HoldsPrefix(file, 0, Logs.EncodeAll(crc, 0, Written(s.log)))
    ensures ok && n <= |s.log| && IsRecovery(crc, file, s.log, n, mem, maxSequence)
    ensures HoldsGroups(s, k, mem)
  {
    ok, mem, maxSequence, n := RecoverLogFile(crc, file, s.log);
    k := PrefixIsGroups(s, n);
  }

  // ---------------------------------------------------------------------
  // What survives
  // ---------------------------------------------------------------------

  /** The bytes of the log up to the end of record `j`. */
  function BytesThrough(crc: Logs.Checksum, log: seq<LogRecord>, j: nat): nat
    requires AllWritable(log) && j < |log|
  {
    |Logs.EncodeAll(crc, 0, Written(log)[..j + 1])|
  }

  /** Fewer records take no more bytes. */
  lemma BytesGrow(crc: Logs.Checksum, written: seq<Bytes>, i: nat, j: nat)
    requires i <= j <= |written|
    ensures |Logs.EncodeAll(crc, 0, written[..i])| <= |Logs.EncodeAll(crc, 0, written[..j])|
  {
    ShorterIsNotLonger(crc, written[..j], i);
    assert written[..j][..i] == written[..i];
  }

  /** A record whose bytes survive is replayed. */
  lemma WholeRecordIsRead(crc: Logs.Checksum, file: Bytes, log: seq<LogRecord>, n: nat, j: nat)
    requires AllWritable(log) && n <= |log| && j < |log|
    requires IsRecovered(crc, file, Written(log), Written(log)[..n])
    requires |file| >= BytesThrough(crc, log, j)
    ensures j < n
  {
    if n <= j {
      BytesGrow(crc, Written(log), n + 1, j + 1);
    }
  }

  lemma {:induction false} ReplayHolds(log: seq<LogRecord>, j: nat)
    requires j < |log|
    ensures Groups.Holds(Groups.ReplayAll(log), |Groups.ReplayAll(log[..j])|,
                         Batches.Records(log[j].first, log[j].ops))
  {
    var m := |log| - 1;
    if j < m {
      ReplayHolds(log[..m], j);
      assert log[..m][..j] == log[..j];
      Groups.HoldsInLonger(Groups.ReplayAll(log[..m]), Batches.Records(log[m].first, log[m].ops),
                           |Groups.ReplayAll(log[..j])|, Batches.Records(log[j].first, log[j].ops));
    }
  }

  /** What was recovered from a file that holds the log through record `j`. */
  ghost predicate IsRecoveryPast(crc: Logs.Checksum, file: Bytes, log: seq<LogRecord>, n: nat, mem: seq<Record>,
                                 maxSequence: nat, j: nat)
    requires AllWritable(log) && n <= |log| && j < |log|
  {
    IsRecovery(crc, file, log, n, mem, maxSequence) && |file| >= BytesThrough(crc, log, j)
  }

  /** If the file holds the log through record `j`, what is recovered from it
      holds the batch. */
  ghost predicate Survives(crc: Logs.Checksum, file: Bytes, log: seq<LogRecord>, n: nat, mem: seq<Record>,
                           maxSequence: nat, j: nat, at: nat, first: nat, batch: seq<Batches.Operation>)
    requires AllWritable(log) && n <= |log| && j < |log|
  {
    IsRecoveryPast(crc, file, log, n, mem, maxSequence, j) ==> Groups.Holds(mem, at, Batches.Records(first, batch))
  }

  /** A write that returned OK is recovered, operation for operation, from every
      file that keeps the log through the record of its group: what a sync
      before the return guarantees. */
  lemma AcknowledgedWriteSurvives(crc: Logs.Checksum, file: Bytes, s: Groups.State, id: Groups.WriterId,
                                  batch: seq<Batches.Operation>, n: nat, mem: seq<Record>, maxSequence: nat)
    returns (k: nat, j: nat, at: nat, first: nat)
    requires Groups.Reachable(s) && AllWritable(s.log) && n <= |s.log|
    requires id in s.done && s.done[id].Ok? && id in s.requests && s.requests[id].batch == Some(batch)
    ensures k < |s.commits| && id in s.commits[k].writers && j == |Groups.LogOf(s.commits[..k])| < |s.log|
    ensures Survives(crc, file, s.log, n, mem, maxSequence, j, at, first, batch)
  {
    var from;
    k, j, from := Groups.BatchInLog(s, id, batch);
    at, first := BatchInRecordSurvives(crc, file, s.log, n, mem, maxSequence, j, from, batch);
  }

  lemma BatchInRecordSurvives(crc: Logs.Checksum, file: Bytes, log: seq<LogRecord>, n: nat, mem: seq<Record>,
                              maxSequence: nat, j: nat, from: nat, batch: seq<Batches.Operation>)
    returns (at: nat, first: nat)
    requires AllWritable(log) && j < |log| && n <= |log| && Groups.Holds(log[j].ops, from, batch)
    ensures Survives(crc, file, log, n, mem, maxSequence, j, at, first, batch)
  {
    at, first := |Groups.ReplayAll(log[..j])| + from, log[j].first + from;
    if IsRecoveryPast(crc, file, log, n, mem, maxSequence, j) {
      BatchIsRecovered(crc, file, log, n, mem, maxSequence, j, from, batch);
    }
  }

  lemma BatchIsRecovered(crc: Logs.Checksum, file: Bytes, log: seq<LogRecord>, n: nat, mem: seq<Record>,
                         maxSequence: nat, j: nat, from: nat, batch: seq<Batches.Operation>)
    requires AllWritable(log) && j < |log| && n <= |log| && Groups.Holds(log[j].ops, from, batch)
    requires IsRecoveryPast(crc, file, log, n, mem, maxSequence, j)
    ensures Groups.Holds(mem, |Groups.ReplayAll(log[..j])| + from, Batches.Records(log[j].first + from, batch))
  {
    RecoveredPast(crc, file, log, n, mem, maxSequence, j);
    BatchInReplay(log, n, j, from, batch);
  }

  lemma RecoveredPast(crc: Logs.Checksum, file: Bytes, log: seq<LogRecord>, n: nat, mem: seq<Record>, maxSequence: nat,
                      j: nat)
    requires AllWritable(log) && j < |log| && n <= |log| && IsRecovery(crc, file, log, n, mem, maxSequence)
    requires |file| >= BytesThrough(crc, log, j)
    ensures j < n && mem == Groups.ReplayAll(log[..n])
  {
    WholeRecordIsRead(crc, file, log, n, j);
  }

  lemma BatchInReplay(log: seq<LogRecord>, n: nat, j: nat, from: nat, batch: seq<Batches.Operation>)
    requires j < n <= |log| && Groups.Holds(log[j].ops, from, batch)
    ensures Groups.Holds(Groups.ReplayAll(log[..n]), |Groups.ReplayAll(log[..j])| + from,
                         Batches.Records(log[j].first + from, batch))
  {
    assert log[..n][..j] == log[..j] && log[..n][j] == log[j];
    ReplayHolds(log[..n], j);
    Groups.BatchIsApplied(Groups.ReplayAll(log[..n]), |Groups.ReplayAll(log[..j])|, log[j].first, log[j].ops, from,
                          batch);
  }
}
