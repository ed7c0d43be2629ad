/** Concurrent writers: a queue whose front commits a group of writes to the log
    and the memtable, while others wait and readers go on reading. */
module GroupCommits {
  import opened InternalKeys
  import opened Coding
  import opened WriteBatches
  import opened Inductions

  type WriterId = nat

  datatype Status = Ok | Failed

  /** One call of `Write`; a null batch only forces a compaction. */
  datatype Request = Request(batch: Option<seq<Operation>>, sync: bool)

  // ---------------------------------------------------------------------
  // BuildBatchGroup
  // ---------------------------------------------------------------------

  const MAX_GROUP_SIZE: nat := 0x10_0000
  const SMALL_WRITE_SIZE: nat := 0x2_0000

  function OperationSize(op: Operation): nat {
    1 + |EncodeVarint(|op.key|)| + |op.key| + if op.Put? then |EncodeVarint(|op.value|)| + |op.value| else 0
  }

  function OperationsSize(ops: seq<Operation>): nat {
    if ops == [] then 0 else OperationSize(ops[0]) + OperationsSize(ops[1..])
  }

  /** The size of a batch's bytes. */
  function ByteSize(ops: seq<Operation>): nat {
    HEADER_SIZE + OperationsSize(ops)
  }

  lemma {:induction false} ByteSizeIsLength(sequence: Word64, ops: seq<Operation>)
    requires AllEncodable(ops) && |ops| < WORD32
    ensures |Contents(sequence, ops)| == ByteSize(ops)
  {
    OperationsSizeIsLength(ops);
  }

  lemma {:induction false} OperationsSizeIsLength(ops: seq<Operation>)
    requires AllEncodable(ops)
    ensures |EncodeOperations(ops)| == OperationsSize(ops)
  {
    if ops != [] {
      OperationsSizeIsLength(ops[1..]);
      Varint32IsVarint(|ops[0].key|);
      if ops[0].Put? {
        Varint32IsVarint(|ops[0].value|);
      }
    }
  }

  function SizeOf(w: Request): nat {
    if w.batch.Some? then ByteSize(w.batch.value) else 0
  }

  function OpsOf(w: Request): seq<Operation> {
    if w.batch.Some? then w.batch.value else []
  }

  /** Total size and operations of the first `n` writers. */
  function GroupSize(writers: seq<Request>, n: nat): nat
    requires n <= |writers|
  {
    if n == 0 then 0 else GroupSize(writers, n - 1) + SizeOf(writers[n - 1])
  }

  function GroupOps(writers: seq<Request>, n: nat): seq<Operation>
    requires n <= |writers|
  {
    if n == 0 then [] else GroupOps(writers, n - 1) + OpsOf(writers[n - 1])
  }

  function MaxSize(first: Request): nat {
    if SizeOf(first) <= 131072 then SizeOf(first) + 131072 else 1048576
  }

  /** Writer `k` may join the group of those before it. */
  predicate Joins(writers: seq<Request>, k: nat)
    requires 0 < k < |writers|
  {
    && (writers[k].sync ==> writers[0].sync)
    && (writers[k].batch.Some? ==> GroupSize(writers, k + 1) <= MaxSize(writers[0]))
  }

  /** The group is the longest prefix of the queue whose members may all join. */
  predicate IsGroup(writers: seq<Request>, n: nat) {
    && 1 <= n <= |writers|
    && (forall k :: 1 <= k < n ==> Joins(writers, k))
    && (n < |writers| ==> !Joins(writers, n))
  }

  /** The group of the first `n` writers, with its size and operations. */
  predicate IsPart(writers: seq<Request>, n: nat, size: nat, ops: seq<Operation>) {
    && 1 <= n <= |writers|
    && size == GroupSize(writers, n) && ops == GroupOps(writers, n)
    && forall k :: 1 <= k < n ==> Joins(writers, k)
  }

  lemma FirstIsPart(writers: seq<Request>)
    requires writers != []
    ensures IsPart(writers, 1, SizeOf(writers[0]), OpsOf(writers[0]))
  {
    assert GroupOps(writers, 0) + OpsOf(writers[0]) == OpsOf(writers[0]);
  }

  lemma OneMoreJoins(writers: seq<Request>, n: nat, size: nat, ops: seq<Operation>)
    requires IsPart(writers, n, size, ops) && n < |writers|
    ensures Joins(writers, n) <==>
      (writers[n].sync ==> writers[0].sync)
      && (writers[n].batch.Some? ==> size + SizeOf(writers[n]) <= MaxSize(writers[0]))
    ensures Joins(writers, n) ==> IsPart(writers, n + 1, size + SizeOf(writers[n]), ops + OpsOf(writers[n]))
  {
  }

  method BuildBatchGroup(writers: seq<Request>) returns (n: nat, result: seq<Operation>)
    requires writers != [] && writers[0].batch.Some?
    ensures IsGroup(writers, n) && result == GroupOps(writers, n)
  {
    var first := writers[0];
    result := first.batch.value;
    var size: nat := SizeOf(first);
    var maxSize := MAX_GROUP_SIZE;
    if size <= SMALL_WRITE_SIZE {
      maxSize := size + SMALL_WRITE_SIZE;
    }
    n := 1;
    FirstIsPart(writers);
    while n < |writers|
      invariant IsPart(writers, n, size, result)
    {
      var w := writers[n];
      OneMoreJoins(writers, n, size, result);
      if w.sync && !first.sync {
        return;
      }
      if w.batch.Some? {
        if size + SizeOf(w) > maxSize {
          return;
        }
        size := size + SizeOf(w);
        result := result + w.batch.value;
      }
      n := n + 1;
    }
  }

  // ---------------------------------------------------------------------
  // The state machine
  // ---------------------------------------------------------------------

  /** The front `size` writers, and the operations under sequence numbers from `first` on. */
  datatype Group = Group(size: nat, first: nat, ops: seq<Operation>)

  /** How far the writer at the front has got.  It holds the lock only between
      steps that change the queue. */
  datatype Leader =
    | NoLeader
    | MakingRoom
    | Logging(group: Group)
    | Syncing(group: Group)
    | Inserting(group: Group, inserted: nat)
    | Finishing(group: Group, status: Status, logged: bool, syncError: bool)

  datatype LogRecord = LogRecord(first: nat, ops: seq<Operation>)

  /** A finished group. */
  datatype Commit = Commit(writers: seq<WriterId>, first: nat, ops: seq<Operation>, status: Status, logged: bool,
                           synced: bool)

  /** `arrived` and `commits` are auxiliary: the order of calls and the finished groups. */
  datatype State = State(
    requests: map<WriterId, Request>,
    queue: seq<WriterId>,
    done: map<WriterId, Status>,
    leader: Leader,
    lastSequence: nat,
    log: seq<LogRecord>,
    mem: seq<Record>,
    failed: bool,
    arrived: seq<WriterId>,
    commits: seq<Commit>)

  datatype Action =
    | Enqueue(id: WriterId, request: Request)
    | Lead
    | RoomFails
    | RoomMade(size: nat)
    | AddRecord(ok: bool, written: bool)
    | Sync(ok: bool)
    | Insert
    | Finish
    | BackgroundError

  ghost predicate Init(s: State) {
    s == State(map[], [], map[], NoLeader, 0, [], [], false, [], [])
  }

  predicate Known(s: State, ids: seq<WriterId>) {
    forall i :: 0 <= i < |ids| ==> ids[i] in s.requests
  }

  /** The queued requests, front first. */
  function Requests(s: State, ids: seq<WriterId>): (r: seq<Request>)
    requires Known(s, ids)
    ensures |r| == |ids| && forall i :: 0 <= i < |ids| ==> r[i] == s.requests[ids[i]]
  {
    seq(|ids|, i requires 0 <= i < |ids| => s.requests[ids[i]])
  }

  predicate Enqueued(s: State, id: WriterId, request: Request, s': State) {
    && id !in s.requests
    && s' == s.(requests := s.requests[id := request], queue := s.queue + [id], arrived := s.arrived + [id])
  }

  /** A writer whose turn has come; `done` is not set, or it would not be queued. */
  predicate Leading(s: State, s': State) {
    s.leader.NoLeader? && s.queue != [] && s' == s.(leader := MakingRoom)
  }

  function EmptyGroup(s: State): Group {
    Group(1, s.lastSequence + 1, [])
  }

  predicate RoomFailed(s: State, s': State) {
    s.leader.MakingRoom? && s' == s.(leader := Finishing(EmptyGroup(s), Failed, false, false))
  }

  /** With room in the memtable: build the group, unless the batch is null. */
  predicate RoomWasMade(s: State, size: nat, s': State) {
    && s.leader.MakingRoom? && !s.failed && Known(s, s.queue) && s.queue != []
    && var writers := Requests(s, s.queue);
       if writers[0].batch.None? then
         s' == s.(leader := Finishing(EmptyGroup(s), Ok, false, false))
       else
         && IsGroup(writers, size)
         && s' == s.(leader := Logging(Group(size, s.lastSequence + 1, GroupOps(writers, size))))
  }

  predicate FrontSyncs(s: State) {
    s.queue != [] && s.queue[0] in s.requests && s.requests[s.queue[0]].sync
  }

  /** A failed append may still have left the record in the log. */
  predicate RecordAdded(s: State, ok: bool, written: bool, s': State) {
    && s.leader.Logging?
    && (ok ==> written)
    && var g := s.leader.group;
       s' == s.(log := if written then s.log + [LogRecord(g.first, g.ops)] else s.log,
                leader := if !ok then Finishing(g, Failed, written, false)
                          else if FrontSyncs(s) then Syncing(g)
                          else Inserting(g, 0))
  }

  predicate Synced(s: State, ok: bool, s': State) {
    && s.leader.Syncing?
    && s' == s.(leader := if ok then Inserting(s.leader.group, 0) else Finishing(s.leader.group, Failed, true, true))
  }

  /** The memtable is filled one operation at a time; readers see it meanwhile. */
  predicate Inserted(s: State, s': State) {
    && s.leader.Inserting?
    && var g, i := s.leader.group, s.leader.inserted;
       if i < |g.ops| then
         s' == s.(mem := s.mem + [Record(g.first + i, g.ops[i])], leader := Inserting(g, i + 1))
       else
         s' == s.(leader := Finishing(g, Ok, true, false))
  }

  function WithStatus(done: map<WriterId, Status>, ids: seq<WriterId>, status: Status): map<WriterId, Status> {
    if ids == [] then done
    else WithStatus(done, ids[..|ids| - 1], status)[ids[|ids| - 1] := status]
  }

  /** Back under the lock: publish the sequence number and wake the group. */
  predicate Finished(s: State, s': State) {
    && s.leader.Finishing? && s.leader.group.size <= |s.queue|
    && var Finishing(g, status, logged, syncError) := s.leader;
       s' == s.(failed := s.failed || syncError,
                lastSequence := s.lastSequence + |g.ops|,
                queue := s.queue[g.size..],
                done := WithStatus(s.done, s.queue[..g.size], status),
                leader := NoLeader,
                commits := s.commits + [Commit(s.queue[..g.size], g.first, g.ops, status, logged,
                                               logged && status.Ok? && FrontSyncs(s))])
  }

  predicate Step(s: State, a: Action, s': State) {
    match a
    case Enqueue(id, request) => Enqueued(s, id, request, s')
    case Lead => Leading(s, s')
    case RoomFails => RoomFailed(s, s')
    case RoomMade(size) => RoomWasMade(s, size, s')
    case AddRecord(ok, written) => RecordAdded(s, ok, written, s')
    case Sync(ok) => Synced(s, ok, s')
    case Insert => Inserted(s, s')
    case Finish => Finished(s, s')
    case BackgroundError => s' == s.(failed := true)
  }

  // ---------------------------------------------------------------------
  // The invariant
  // ---------------------------------------------------------------------

  function WritersOf(commits: seq<Commit>): seq<WriterId> {
    if commits == [] then [] else WritersOf(commits[..|commits| - 1]) + commits[|commits| - 1].writers
  }

  /** The sequence number in force after these commits. */
  function Total(commits: seq<Commit>): nat {
    if commits == [] then 0 else Total(commits[..|commits| - 1]) + |commits[|commits| - 1].ops|
  }

  function LogOf(commits: seq<Commit>): seq<LogRecord> {
    if commits == [] then []
    else
      var c := commits[|commits| - 1];
      LogOf(commits[..|commits| - 1]) + if c.logged then [LogRecord(c.first, c.ops)] else []
  }

  function MemOf(commits: seq<Commit>): seq<Record> {
    if commits == [] then []
    else
      var c := commits[|commits| - 1];
      MemOf(commits[..|commits| - 1]) + Applied(c)
  }

  function Applied(c: Commit): seq<Record> {
    if c.status.Ok? then Records(c.first, c.ops) else []
  }

  predicate NoDuplicates(ids: seq<WriterId>) {
    forall i, j :: 0 <= i < j < |ids| ==> ids[i] != ids[j]
  }

  /** What holds of a finished group: it takes the next sequence numbers; if it
      succeeded it holds its writers' batches in order, and was logged and, if
      any of its writers asked for it, synced. */
  predicate CommitOk(s: State, k: nat)
    requires k < |s.commits|
  {
    var c := s.commits[k];
    && c.first == Total(s.commits[..k]) + 1
    && c.writers != []
    && Known(s, c.writers)
    && (forall i :: 0 <= i < |c.writers| ==> c.writers[i] in s.done && s.done[c.writers[i]] == c.status)
    && (c.status.Ok? ==> Succeeded(s, c))
  }

  predicate Succeeded(s: State, c: Commit)
    requires c.writers != [] && Known(s, c.writers)
  {
    && c.ops == GroupOps(Requests(s, c.writers), |c.writers|)
    && (c.logged ==> forall i :: 0 <= i < |c.writers| && s.requests[c.writers[i]].sync ==> c.synced)
    && (!c.logged ==> |c.writers| == 1 && s.requests[c.writers[0]].batch.None?)
  }

  /** The group in progress. */
  ghost predicate LeaderOk(s: State) {
    match s.leader
    case NoLeader => true
    case MakingRoom => s.queue != []
    case Logging(g) => GroupOk(s, g)
    case Syncing(g) => GroupOk(s, g) && FrontSyncs(s)
    case Inserting(g, i) => GroupOk(s, g) && i <= |g.ops|
    case Finishing(g, status, logged, syncError) =>
      if status.Ok? && logged then GroupOk(s, g)
      else
        && 1 <= g.size <= |s.queue| && g.first == s.lastSequence + 1
        && (status.Ok? ==> g == EmptyGroup(s) && s.queue[0] in s.requests && s.requests[s.queue[0]].batch.None?)
  }

  ghost predicate GroupOk(s: State, g: Group) {
    && Known(s, s.queue)
    && 1 <= g.size <= |s.queue|
    && g.first == s.lastSequence + 1
    && g.ops == GroupOps(Requests(s, s.queue), g.size)
    && (forall k :: 1 <= k < g.size && s.requests[s.queue[k]].sync ==> s.requests[s.queue[0]].sync)
  }

  /** What the group in progress has put in the log and the memtable so far. */
  function LogInFlight(s: State): seq<LogRecord> {
    match s.leader
    case Syncing(g) => [LogRecord(g.first, g.ops)]
    case Inserting(g, _) => [LogRecord(g.first, g.ops)]
    case Finishing(g, _, logged, _) => if logged then [LogRecord(g.first, g.ops)] else []
    case _ => []
  }

  function MemInFlight(s: State): seq<Record> {
    match s.leader
    case Inserting(g, i) => if i <= |g.ops| then Records(g.first, g.ops[..i]) else []
    case Finishing(g, status, _, _) => if status.Ok? then Records(g.first, g.ops) else []
    case _ => []
  }

  /** Groups are consecutive stretches of the callers, in order of arrival. */
  ghost predicate QueueInv(s: State) {
    && s.arrived == WritersOf(s.commits) + s.queue
    && NoDuplicates(s.arrived)
    && (forall id :: id in s.requests <==> id in s.arrived)
    && (forall id :: id in s.done <==> id in WritersOf(s.commits))
  }

  ghost predicate CommitsInv(s: State) {
    forall k :: 0 <= k < |s.commits| ==> CommitOk(s, k)
  }

  /** The log and the memtable hold the finished groups, in the same order, and
      then the one in progress. */
  ghost predicate StoreInv(s: State) {
    && s.lastSequence == Total(s.commits)
    && s.log == LogOf(s.commits) + LogInFlight(s)
    && s.mem == MemOf(s.commits) + MemInFlight(s)
  }

  ghost predicate Inv(s: State) {
    QueueInv(s) && CommitsInv(s) && StoreInv(s) && LeaderOk(s)
  }

  lemma InitHasInv(s: State)
    requires Init(s)
    ensures Inv(s)
  {
  }

  lemma GroupOpsAgree(a: seq<Request>, b: seq<Request>, n: nat)
    requires n <= |a| && n <= |b| && a[..n] == b[..n]
    ensures GroupOps(a, n) == GroupOps(b, n)
  {
    if n > 0 {
      assert a[n - 1] == a[..n][n - 1] == b[..n][n - 1];
      assert a[..n - 1] == a[..n][..n - 1] == b[..n][..n - 1] == b[..n - 1];
      GroupOpsAgree(a, b, n - 1);
    }
  }

  /** New requests leave the finished groups as they are. */
  lemma CommitsStayOk(s: State, s': State)
    requires CommitsInv(s) && s'.commits == s.commits && s'.done == s.done
    requires forall id :: id in s.requests ==> id in s'.requests && s'.requests[id] == s.requests[id]
    ensures CommitsInv(s')
  {
    forall k | 0 <= k < |s.commits| ensures CommitOk(s', k) {
      assert CommitOk(s, k);
      assert Requests(s, s.commits[k].writers) == Requests(s', s.commits[k].writers);
    }
  }

  lemma EnqueueKeepsGroupOk(s: State, id: WriterId, request: Request, s': State, g: Group)
    requires Enqueued(s, id, request, s') && GroupOk(s, g)
    ensures GroupOk(s', g)
  {
    forall i | 0 <= i < |s'.queue| ensures s'.queue[i] in s'.requests {
    }
    assert Requests(s, s.queue)[..g.size] == Requests(s', s'.queue)[..g.size];
    GroupOpsAgree(Requests(s, s.queue), Requests(s', s'.queue), g.size);
  }

  lemma EnqueueKeepsLeaderOk(s: State, id: WriterId, request: Request, s': State)
    requires Enqueued(s, id, request, s') && LeaderOk(s)
    ensures LeaderOk(s')
  {
    match s.leader
    case NoLeader =>
    case MakingRoom =>
    case Logging(g) => EnqueueKeepsGroupOk(s, id, request, s', g);
    case Syncing(g) => EnqueueKeepsGroupOk(s, id, request, s', g);
    case Inserting(g, _) => EnqueueKeepsGroupOk(s, id, request, s', g);
    case Finishing(g, status, logged, _) =>
      if status.Ok? && logged {
        EnqueueKeepsGroupOk(s, id, request, s', g);
      }
  }

  lemma EnqueueKeepsInv(s: State, id: WriterId, request: Request, s': State)
    requires Inv(s) && Enqueued(s, id, request, s')
    ensures Inv(s')
  {
    CommitsStayOk(s, s');
    EnqueueKeepsLeaderOk(s, id, request, s');
    assert s'.arrived == WritersOf(s'.commits) + s'.queue;
    assert id !in s.arrived;
  }

  lemma QueueIsKnown(s: State)
    requires QueueInv(s)
    ensures Known(s, s.queue)
  {
    forall i | 0 <= i < |s.queue| ensures s.queue[i] in s.requests {
      assert s.queue[i] in s.arrived;
    }
  }

  lemma QueueStays(s: State, s': State)
    requires QueueInv(s) && CommitsInv(s)
    requires s'.requests == s.requests && s'.queue == s.queue && s'.done == s.done
    requires s'.arrived == s.arrived && s'.commits == s.commits
    ensures QueueInv(s') && CommitsInv(s')
    ensures Known(s, s.queue) && Known(s', s'.queue) && Requests(s', s'.queue) == Requests(s, s.queue)
  {
    CommitsStayOk(s, s');
    QueueIsKnown(s);
  }

  lemma LeadKeepsInv(s: State, s': State)
    requires Inv(s) && (Leading(s, s') || RoomFailed(s, s'))
    ensures Inv(s')
  {
    QueueStays(s, s');
  }

  lemma RoomMadeKeepsInv(s: State, size: nat, s': State)
    requires Inv(s) && RoomWasMade(s, size, s')
    ensures Inv(s')
  {
    QueueStays(s, s');
    assert Records(s.lastSequence + 1, []) == [];
    var writers := Requests(s, s.queue);
    if writers[0].batch.Some? {
      forall k | 1 <= k < size && s.requests[s.queue[k]].sync ensures s.requests[s.queue[0]].sync {
        assert Joins(writers, k);
      }
    }
  }

  lemma AddRecordKeepsInv(s: State, ok: bool, written: bool, s': State)
    requires Inv(s) && RecordAdded(s, ok, written, s')
    ensures Inv(s')
  {
    QueueStays(s, s');
    RecordInFlight(s, ok, written, s');
  }

  lemma RecordInFlight(s: State, ok: bool, written: bool, s': State)
    requires StoreInv(s) && RecordAdded(s, ok, written, s')
    ensures StoreInv(s')
  {
    assert Records(s.leader.group.first, s.leader.group.ops[..0]) == [];
    assert s.log == LogOf(s.commits) + [] == LogOf(s.commits);
  }

  lemma SyncKeepsInv(s: State, ok: bool, s': State)
    requires Inv(s) && Synced(s, ok, s')
    ensures Inv(s')
  {
    QueueStays(s, s');
    SyncInFlight(s, ok, s');
  }

  lemma SyncInFlight(s: State, ok: bool, s': State)
    requires StoreInv(s) && Synced(s, ok, s')
    ensures StoreInv(s')
  {
    assert Records(s.leader.group.first, s.leader.group.ops[..0]) == [];
  }

  lemma InsertKeepsInv(s: State, s': State)
    requires Inv(s) && Inserted(s, s')
    ensures Inv(s')
  {
    QueueStays(s, s');
    InsertInFlight(s, s');
  }

  lemma InsertInFlight(s: State, s': State)
    requires StoreInv(s) && Inserted(s, s') && s.leader.inserted <= |s.leader.group.ops|
    ensures StoreInv(s')
  {
    var g, i := s.leader.group, s.leader.inserted;
    if i < |g.ops| {
      assert Records(g.first, g.ops[..i + 1]) == Records(g.first, g.ops[..i]) + [Record(g.first + i, g.ops[i])];
    } else {
      assert g.ops[..i] == g.ops;
    }
  }

  lemma {:induction false} WithStatusAt(done: map<WriterId, Status>, ids: seq<WriterId>, status: Status)
    ensures forall id :: id in WithStatus(done, ids, status) <==> id in done || id in ids
    ensures forall id :: id in ids ==> WithStatus(done, ids, status)[id] == status
    ensures forall id :: id in done && id !in ids ==> WithStatus(done, ids, status)[id] == done[id]
  {
    if ids != [] {
      var n := |ids| - 1;
      WithStatusAt(done, ids[..n], status);
      assert ids == ids[..n] + [ids[n]];
    }
  }

  lemma FinishKeepsQueueInv(s: State, s': State)
    requires QueueInv(s) && Finished(s, s')
    ensures QueueInv(s')
  {
    var n := s.leader.group.size;
    WithStatusAt(s.done, s.queue[..n], s.leader.status);
    assert s'.commits[..|s.commits|] == s.commits;
    assert s.queue == s.queue[..n] + s.queue[n..];
    assert WritersOf(s.commits) + s.queue == (WritersOf(s.commits) + s.queue[..n]) + s.queue[n..];
  }

  lemma FinishKeepsStoreInv(s: State, s': State)
    requires StoreInv(s) && Finished(s, s')
    ensures StoreInv(s')
  {
    var c := s'.commits[|s.commits|];
    assert s'.commits == s.commits + [c];
    InFlightIsFinished(s, s', c);
  }

  lemma InFlightIsFinished(s: State, s': State, c: Commit)
    requires StoreInv(s) && s.leader.Finishing? && s'.leader.NoLeader? && s'.commits == s.commits + [c]
    requires s'.log == s.log && s'.mem == s.mem && s'.lastSequence == s.lastSequence + |c.ops|
    requires c.first == s.leader.group.first && c.ops == s.leader.group.ops
    requires c.status == s.leader.status && c.logged == s.leader.logged
    ensures StoreInv(s')
  {
    OneMoreCommit(s.commits, c);
    assert s'.log + [] == s'.log && s'.mem + [] == s'.mem;
  }

  lemma OneMoreCommit(commits: seq<Commit>, c: Commit)
    ensures Total(commits + [c]) == Total(commits) + |c.ops|
    ensures LogOf(commits + [c]) == LogOf(commits) + if c.logged then [LogRecord(c.first, c.ops)] else []
    ensures MemOf(commits + [c]) == MemOf(commits) + Applied(c)
  {
    assert (commits + [c])[..|commits|] == commits;
  }

  lemma QueueNotDone(s: State, n: nat)
    requires QueueInv(s) && n <= |s.queue|
    ensures forall i :: 0 <= i < n ==> s.queue[i] !in WritersOf(s.commits)
  {
    var front := WritersOf(s.commits);
    forall i, j | 0 <= i < n && 0 <= j < |front| ensures front[j] != s.queue[i] {
      assert s.arrived[j] == front[j] && s.arrived[|front| + i] == s.queue[i];
    }
  }

  lemma {:induction false} CommitWriters(commits: seq<Commit>, k: nat, id: WriterId)
    requires k < |commits| && id in commits[k].writers
    ensures id in WritersOf(commits)
  {
    var n := |commits| - 1;
    if k < n {
      CommitWriters(commits[..n], k, id);
    }
  }

  lemma OldCommitStaysOk(s: State, s': State, k: nat)
    requires QueueInv(s) && Finished(s, s') && k < |s.commits| && CommitOk(s, k)
    ensures CommitOk(s', k)
  {
    var c, n := s.commits[k], s.leader.group.size;
    assert s'.commits[..k] == s.commits[..k];
    assert Requests(s, c.writers) == Requests(s', c.writers);
    WithStatusAt(s.done, s.queue[..n], s.leader.status);
    QueueNotDone(s, n);
    forall i | 0 <= i < |c.writers| ensures c.writers[i] in s'.done && s'.done[c.writers[i]] == c.status {
      CommitWriters(s.commits, k, c.writers[i]);
    }
  }

  lemma NewCommitIsOk(s: State, s': State)
    requires LeaderOk(s) && Known(s, s.queue) && s.lastSequence == Total(s.commits) && Finished(s, s')
    ensures CommitOk(s', |s.commits|)
  {
    var n, k := s.leader.group.size, |s.commits|;
    assert s'.commits[k].writers == s.queue[..n] && s'.commits[..k] == s.commits;
    WithStatusAt(s.done, s.queue[..n], s.leader.status);
    if s.leader.status.Ok? {
      GroupSucceeded(s, s', s'.commits[k]);
    }
  }

  lemma GroupSucceeded(s: State, s': State, c: Commit)
    requires LeaderOk(s) && Known(s, s.queue) && s'.requests == s.requests
    requires s.leader.Finishing? && s.leader.status.Ok? && 1 <= s.leader.group.size <= |s.queue|
    requires c.writers == s.queue[..s.leader.group.size] && c.ops == s.leader.group.ops
    requires c.logged == s.leader.logged && c.synced == (c.logged && FrontSyncs(s))
    ensures Known(s', c.writers) && Succeeded(s', c)
  {
    FinishedOpsAreGroup(s, s'.requests, c.writers);
    assert Requests(s', c.writers) == Requests(s, c.writers);
    forall i | c.logged && 0 <= i < |c.writers| && s'.requests[c.writers[i]].sync ensures c.synced {
      assert c.writers[i] == s.queue[i];
    }
  }

  /** A successful group holds its writers' batches. */
  lemma FinishedOpsAreGroup(s: State, requests: map<WriterId, Request>, writers: seq<WriterId>)
    requires LeaderOk(s) && Known(s, s.queue) && requests == s.requests
    requires s.leader.Finishing? && s.leader.status.Ok? && s.leader.group.size <= |s.queue|
    requires writers == s.queue[..s.leader.group.size]
    ensures Known(s, writers) && s.leader.group.ops == GroupOps(Requests(s, writers), |writers|)
  {
    var all, some := Requests(s, s.queue), Requests(s, writers);
    assert all[..|writers|] == some == some[..|writers|];
    GroupOpsAgree(some, all, |writers|);
    if !s.leader.logged {
      OneNullWriter(some);
    }
  }

  lemma OneNullWriter(writers: seq<Request>)
    requires |writers| == 1 && writers[0].batch.None?
    ensures GroupOps(writers, 1) == []
  {
    assert GroupOps(writers, 0) == [];
  }

  lemma FinishKeepsInv(s: State, s': State)
    requires Inv(s) && Finished(s, s')
    ensures Inv(s')
  {
    FinishKeepsQueueInv(s, s');
    FinishKeepsStoreInv(s, s');
    QueueIsKnown(s);
    forall k | 0 <= k < |s'.commits| ensures CommitOk(s', k) {
      if k < |s.commits| {
        OldCommitStaysOk(s, s', k);
      } else {
        NewCommitIsOk(s, s');
      }
    }
  }

  lemma StepKeepsInv(s: State, a: Action, s': State)
    requires Inv(s) && Step(s, a, s')
    ensures Inv(s')
  {
    match a
    case Enqueue(id, request) => EnqueueKeepsInv(s, id, request, s');
    case Lead => LeadKeepsInv(s, s');
    case RoomFails => LeadKeepsInv(s, s');
    case RoomMade(size) => RoomMadeKeepsInv(s, size, s');
    case AddRecord(ok, written) => AddRecordKeepsInv(s, ok, written, s');
    case Sync(ok) => SyncKeepsInv(s, ok, s');
    case Insert => InsertKeepsInv(s, s');
    case Finish => FinishKeepsInv(s, s');
    case BackgroundError => BackgroundErrorKeepsInv(s, s');
  }

  lemma BackgroundErrorKeepsInv(s: State, s': State)
    requires Inv(s) && s' == s.(failed := true)
    ensures Inv(s')
  {
    QueueStays(s, s');
    LeaderStays(s, s');
  }

  lemma LeaderStays(s: State, s': State)
    requires LeaderOk(s) && s'.leader == s.leader && s'.lastSequence == s.lastSequence
    requires s'.requests == s.requests && s'.queue == s.queue
    ensures LeaderOk(s')
  {
    if Known(s, s.queue) {
      assert Known(s', s'.queue) && Requests(s', s'.queue) == Requests(s, s.queue);
    }
  }

  // ---------------------------------------------------------------------
  // Every run
  // ---------------------------------------------------------------------

  ghost predicate IsRun(states: seq<State>, actions: seq<Action>) {
    && |states| == |actions| + 1
    && Init(states[0])
    && forall i :: 0 <= i < |actions| ==> Step(states[i], actions[i], states[i + 1])
  }

  lemma {:induction false} RunKeepsInv(states: seq<State>, actions: seq<Action>, n: nat)
    requires IsRun(states, actions) && n < |states|
    ensures Inv(states[n])
  {
    if n == 0 {
      InitHasInv(states[0]);
    } else {
      RunKeepsInv(states, actions, n - 1);
      StepKeepsInv(states[n - 1], actions[n - 1], states[n]);
    }
  }

  /** A state that some run comes to. */
  ghost predicate Reachable(s: State) {
    exists states, actions, n: nat :: Reaches(states, actions, n, s)
  }

  ghost predicate Reaches(states: seq<State>, actions: seq<Action>, n: nat, s: State) {
    IsRun(states, actions) && n < |states| && states[n] == s
  }

  lemma ReachableHasInv(s: State)
    requires Reachable(s)
    ensures Inv(s)
  {
    var states, actions, n: nat :| Reaches(states, actions, n, s);
    RunKeepsInv(states, actions, n);
  }

  lemma {:induction false} TotalsAscend(commits: seq<Commit>, i: nat, j: nat)
    requires i <= j <= |commits|
    ensures Total(commits[..i]) <= Total(commits[..j])
    ensures i < j ==> Total(commits[..i]) + |commits[i].ops| <= Total(commits[..j])
  {
    if i < j {
      assert commits[..j][..j - 1] == commits[..j - 1];
      TotalsAscend(commits, i, j - 1);
    }
  }

  /** Groups take disjoint, increasing ranges of sequence numbers. */
  lemma RangesAreDisjoint(s: State, i: nat, j: nat)
    requires Inv(s) && i < j < |s.commits|
    ensures s.commits[i].first + |s.commits[i].ops| <= s.commits[j].first
    ensures s.commits[j].first + |s.commits[j].ops| <= s.lastSequence + 1
  {
    assert CommitOk(s, i) && CommitOk(s, j);
    TotalsAscend(s.commits, i, j);
    TotalsAscend(s.commits, j, |s.commits|);
    assert s.commits[..|s.commits|] == s.commits;
  }

  lemma MemGrows(commits: seq<Commit>, k: nat)
    requires k < |commits|
    ensures MemOf(commits[..k + 1]) == MemOf(commits[..k]) + Applied(commits[k])
  {
    assert commits[..k + 1][..k] == commits[..k];
  }

  ghost predicate StartsWith(seen: seq<Record>, commits: seq<Commit>, n: nat) {
    n <= |commits| && seen <= MemOf(commits[..n])
  }

  lemma StillStartsWith(seen: seq<Record>, commits: seq<Commit>, n: nat)
    requires StartsWith(seen, commits, n) && n < |commits|
    ensures StartsWith(seen, commits, n + 1)
  {
    MemGrows(commits, n);
    LongerPrefix(seen, MemOf(commits[..n]), Applied(commits[n]));
  }

  lemma {:induction false} StartsWithFrom(seen: seq<Record>, commits: seq<Commit>, k: nat, n: nat)
    requires StartsWith(seen, commits, k) && k <= n <= |commits|
    ensures StartsWith(seen, commits, n)
    decreases n - k
  {
    if k < n {
      StillStartsWith(seen, commits, k);
      StartsWithFrom(seen, commits, k + 1, n);
    }
  }

  lemma MemIsPrefix(commits: seq<Commit>, k: nat, n: nat)
    requires k <= n <= |commits|
    ensures MemOf(commits[..k]) <= MemOf(commits[..n])
  {
    StartsWithFrom(MemOf(commits[..k]), commits, k, n);
  }

  lemma LongerPrefix<T>(a: seq<T>, b: seq<T>, more: seq<T>)
    requires a <= b
    ensures a <= b + more
  {
  }

  /** From position `from` on, sequence numbers lie in (lo, hi]. */
  ghost predicate InRange(mem: seq<Record>, from: nat, lo: nat, hi: nat) {
    forall p :: from <= p < |mem| ==> lo < mem[p].sequence <= hi
  }

  lemma AppendInRange(mem: seq<Record>, more: seq<Record>, from: nat, lo: nat, mid: nat, hi: nat)
    requires from <= |mem| && InRange(mem, from, lo, mid) && InRange(more, 0, mid, hi) && lo <= mid <= hi
    ensures InRange(mem + more, from, lo, hi)
  {
  }

  lemma CommitInRange(s: State, k: nat)
    requires k < |s.commits| && CommitOk(s, k)
    ensures Total(s.commits[..k + 1]) == Total(s.commits[..k]) + |s.commits[k].ops|
    ensures MemOf(s.commits[..k + 1]) == MemOf(s.commits[..k]) + Applied(s.commits[k])
    ensures InRange(Applied(s.commits[k]), 0, Total(s.commits[..k]), Total(s.commits[..k + 1]))
  {
    assert s.commits[..k + 1][..k] == s.commits[..k];
    MemGrows(s.commits, k);
  }

  /** The memtable after `n` commits has grown since `k` of them, by records of later numbers. */
  ghost predicate LaterThan(commits: seq<Commit>, k: nat, n: nat)
    requires k <= n <= |commits|
  {
    && |MemOf(commits[..k])| <= |MemOf(commits[..n])| && Total(commits[..k]) <= Total(commits[..n])
    && InRange(MemOf(commits[..n]), |MemOf(commits[..k])|, Total(commits[..k]), Total(commits[..n]))
  }

  lemma MemInRange(s: State, k: nat, n: nat)
    requires CommitsInv(s) && k <= n <= |s.commits|
    ensures LaterThan(s.commits, k, n)
  {
    var p := (i: nat) => k <= i <= |s.commits| && LaterThan(s.commits, k, i);
    forall i | k <= i < n && p(i) ensures p(i + 1) {
      OneMoreInRange(s, k, i);
    }
    UpFrom(p, k, n);
  }

  lemma OneMoreInRange(s: State, k: nat, n: nat)
    requires CommitsInv(s) && k <= n < |s.commits| && LaterThan(s.commits, k, n)
    ensures LaterThan(s.commits, k, n + 1)
  {
    assert CommitOk(s, n);
    CommitInRange(s, n);
    AppendInRange(MemOf(s.commits[..n]), Applied(s.commits[n]), |MemOf(s.commits[..k])|, Total(s.commits[..k]),
                  Total(s.commits[..n]), Total(s.commits[..n + 1]));
  }

  /** What a reader at a published sequence number sees of the memtable, while
      any group is being inserted: exactly the groups finished by then, whole. */
  lemma SnapshotSeesWholeGroups(s: State, k: nat)
    requires Inv(s) && k <= |s.commits|
    ensures k == |s.commits| ==> Total(s.commits[..k]) == s.lastSequence
    ensures var snapshot, seen := Total(s.commits[..k]), MemOf(s.commits[..k]);
      && seen <= s.mem
      && forall p :: 0 <= p < |s.mem| ==> (s.mem[p].sequence <= snapshot <==> p < |seen|)
  {
    MemIsPrefix(s.commits, k, |s.commits|);
    assert s.commits[..|s.commits|] == s.commits;
    SeenOrLater(s, k);
  }

  lemma SeenOrLater(s: State, k: nat)
    requires CommitsInv(s) && StoreInv(s) && LeaderOk(s) && k <= |s.commits|
    ensures k == |s.commits| ==> Total(s.commits[..k]) == s.lastSequence
    ensures forall p :: 0 <= p < |s.mem| ==>
      (s.mem[p].sequence <= Total(s.commits[..k]) <==> p < |MemOf(s.commits[..k])|)
  {
    var n := |s.commits|;
    assert s.commits[..n] == s.commits && s.commits[..0] == [];
    MemInRange(s, 0, k);
    MemInRange(s, k, n);
    MemIsPrefix(s.commits, k, n);
    InFlightIsNew(s);
    SplitMem(MemOf(s.commits[..k]), MemOf(s.commits), MemInFlight(s), Total(s.commits[..k]), s.lastSequence);
  }

  lemma SplitMem(seen: seq<Record>, finished: seq<Record>, inFlight: seq<Record>, snapshot: nat, last: nat)
    requires seen <= finished && snapshot <= last
    requires InRange(seen, 0, 0, snapshot) && InRange(finished, |seen|, snapshot, last)
    requires forall p :: 0 <= p < |inFlight| ==> inFlight[p].sequence > last
    ensures var mem := finished + inFlight;
      forall p :: 0 <= p < |mem| ==> (mem[p].sequence <= snapshot <==> p < |seen|)
  {
  }

  lemma InFlightIsNew(s: State)
    requires LeaderOk(s)
    ensures forall p :: 0 <= p < |MemInFlight(s)| ==> MemInFlight(s)[p].sequence > s.lastSequence
  {
  }

  /** `ys` stands in `xs` from position `at` on. */
  ghost predicate Holds<T>(xs: seq<T>, at: nat, ys: seq<T>) {
    at + |ys| <= |xs| && forall j :: 0 <= j < |ys| ==> ys[j] == xs[at + j]
  }

  lemma HoldsInLonger<T>(xs: seq<T>, more: seq<T>, at: nat, ys: seq<T>)
    requires Holds(xs, at, ys)
    ensures Holds(xs + more, at, ys)
  {
  }

  lemma HoldsInHolds<T>(xs: seq<T>, at: nat, ys: seq<T>, at': nat, zs: seq<T>)
    requires Holds(xs, at, ys) && Holds(ys, at', zs)
    ensures Holds(xs, at + at', zs)
  {
    forall j | 0 <= j < |zs| ensures zs[j] == xs[at + at' + j] {
      assert zs[j] == ys[at' + j] == xs[at + (at' + j)];
    }
  }

  lemma {:induction false} CommitIsStored(commits: seq<Commit>, k: nat)
    requires k < |commits| && commits[k].status.Ok? && commits[k].logged
    ensures LogRecord(commits[k].first, commits[k].ops) in LogOf(commits)
    ensures Holds(MemOf(commits), |MemOf(commits[..k])|, Records(commits[k].first, commits[k].ops))
  {
    var n := |commits| - 1;
    if k < n {
      CommitIsStored(commits[..n], k);
      assert commits[..n][..k] == commits[..k];
      HoldsInLonger(MemOf(commits[..n]), Applied(commits[n]), |MemOf(commits[..k])|,
                    Records(commits[k].first, commits[k].ops));
    }
  }

  lemma {:induction false} CommitOf(commits: seq<Commit>, id: WriterId) returns (k: nat, i: nat)
    requires id in WritersOf(commits)
    ensures k < |commits| && i < |commits[k].writers| && commits[k].writers[i] == id
  {
    var n := |commits| - 1;
    if id in commits[n].writers {
      k := n;
      i :| 0 <= i < |commits[n].writers| && commits[n].writers[i] == id;
    } else {
      k, i := CommitOf(commits[..n], id);
    }
  }

  lemma {:induction false} BatchInGroup(writers: seq<Request>, i: nat, n: nat)
    requires i < n <= |writers|
    ensures Holds(GroupOps(writers, n), |GroupOps(writers, i)|, OpsOf(writers[i]))
  {
    if i < n - 1 {
      BatchInGroup(writers, i, n - 1);
      HoldsInLonger(GroupOps(writers, n - 1), OpsOf(writers[n - 1]), |GroupOps(writers, i)|, OpsOf(writers[i]));
    }
  }

  /** A write that returned OK belongs to a group that was logged, and stands,
      operation for operation at consecutive sequence numbers, in the memtable;
      if it asked for it, the log was synced after its record. */
  lemma OkIsLoggedAndApplied(s: State, id: WriterId, batch: seq<Operation>) returns (k: nat, i: nat, at: nat)
    requires Inv(s) && id in s.done && s.done[id].Ok?
    requires id in s.requests && s.requests[id].batch == Some(batch)
    ensures k < |s.commits| && i < |s.commits[k].writers| && s.commits[k].writers[i] == id
    ensures LogRecord(s.commits[k].first, s.commits[k].ops) in s.log
    ensures Holds(s.commits[k].ops, at, batch)
    ensures Holds(s.mem, |MemOf(s.commits[..k])| + at, Records(s.commits[k].first + at, batch))
    ensures s.requests[id].sync ==> s.commits[k].synced
  {
    k, i, at := OkBatch(s, id, batch);
    IsStored(s, k);
    BatchIsApplied(s.mem, |MemOf(s.commits[..k])|, s.commits[k].first, s.commits[k].ops, at, batch);
  }

  lemma BatchIsApplied(mem: seq<Record>, from: nat, first: nat, ops: seq<Operation>, at: nat, batch: seq<Operation>)
    requires Holds(mem, from, Records(first, ops)) && Holds(ops, at, batch)
    ensures Holds(mem, from + at, Records(first + at, batch))
  {
    RecordsHold(first, ops, at, batch);
    HoldsInHolds(mem, from, Records(first, ops), at, Records(first + at, batch));
  }

  lemma OkBatch(s: State, id: WriterId, batch: seq<Operation>) returns (k: nat, i: nat, at: nat)
    requires CommitsInv(s) && id in WritersOf(s.commits) && id in s.done && s.done[id].Ok?
    requires id in s.requests && s.requests[id].batch == Some(batch)
    ensures k < |s.commits| && i < |s.commits[k].writers| && s.commits[k].writers[i] == id
    ensures s.commits[k].status.Ok? && s.commits[k].logged && Holds(s.commits[k].ops, at, batch)
    ensures s.requests[id].sync ==> s.commits[k].synced
  {
    k, i := OkCommit(s, id);
    var writers := Requests(s, s.commits[k].writers);
    at := |GroupOps(writers, i)|;
    BatchInGroup(writers, i, |writers|);
  }

  lemma RecordsHold(first: nat, ops: seq<Operation>, at: nat, batch: seq<Operation>)
    requires Holds(ops, at, batch)
    ensures Holds(Records(first, ops), at, Records(first + at, batch))
  {
  }

  /** A successful write with a batch belongs to a successful, logged group. */
  lemma OkCommit(s: State, id: WriterId) returns (k: nat, i: nat)
    requires CommitsInv(s) && id in WritersOf(s.commits) && id in s.done && s.done[id].Ok?
    requires id in s.requests && s.requests[id].batch.Some?
    ensures k < |s.commits| && i < |s.commits[k].writers| && s.commits[k].writers[i] == id
    ensures var c := s.commits[k];
      && c.status.Ok? && c.logged && Known(s, c.writers)
      && c.ops == GroupOps(Requests(s, c.writers), |c.writers|)
      && (s.requests[id].sync ==> c.synced)
  {
    k, i := CommitOf(s.commits, id);
    assert CommitOk(s, k);
  }

  lemma IsStored(s: State, k: nat)
    requires StoreInv(s) && k < |s.commits| && s.commits[k].status.Ok? && s.commits[k].logged
    ensures LogRecord(s.commits[k].first, s.commits[k].ops) in s.log
    ensures Holds(s.mem, |MemOf(s.commits[..k])|, Records(s.commits[k].first, s.commits[k].ops))
  {
    CommitIsStored(s.commits, k);
    HoldsInLonger(MemOf(s.commits), MemInFlight(s), |MemOf(s.commits[..k])|,
                  Records(s.commits[k].first, s.commits[k].ops));
  }

  // ---------------------------------------------------------------------
  // Replaying the log
  // ---------------------------------------------------------------------

  function ReplayAll(log: seq<LogRecord>): seq<Record> {
    if log == [] then []
    else
      var last := log[|log| - 1];
      ReplayAll(log[..|log| - 1]) + Records(last.first, last.ops)
  }

  lemma {:induction false} ReplayAppends(a: seq<LogRecord>, b: seq<LogRecord>)
    ensures ReplayAll(a + b) == ReplayAll(a) + ReplayAll(b)
    decreases |b|
  {
    if b == [] {
      assert a + b == a;
    } else {
      var n := |b| - 1;
      assert (a + b)[..|a + b| - 1] == a + b[..n];
      ReplayAppends(a, b[..n]);
      Regroup(ReplayAll(a), ReplayAll(b[..n]), Records(b[n].first, b[n].ops));
    }
  }

  lemma ReplayOne(r: LogRecord)
    ensures ReplayAll([r]) == Records(r.first, r.ops)
  {
    assert [r][..0] == [] && ReplayAll([r]) == [] + Records(r.first, r.ops);
  }

  function LoggedRecords(c: Commit): seq<Record> {
    if c.logged then Records(c.first, c.ops) else []
  }

  /** What these groups have put in the log, whether they succeeded or not. */
  function LoggedOf(commits: seq<Commit>): seq<Record> {
    if commits == [] then []
    else LoggedOf(commits[..|commits| - 1]) + LoggedRecords(commits[|commits| - 1])
  }

  lemma {:induction false} LogReplays(commits: seq<Commit>)
    ensures ReplayAll(LogOf(commits)) == LoggedOf(commits)
  {
    if commits != [] {
      var n := |commits| - 1;
      var c := commits[n];
      LogReplays(commits[..n]);
      if c.logged {
        ReplayAppends(LogOf(commits[..n]), [LogRecord(c.first, c.ops)]);
        ReplayOne(LogRecord(c.first, c.ops));
      } else {
        assert LogOf(commits) == LogOf(commits[..n]) + [] == LogOf(commits[..n]);
      }
    }
  }

  /** In every state the log replays to the groups logged, in order, and the one in progress. */
  lemma LogReplaysToGroups(s: State)
    requires StoreInv(s)
    ensures ReplayAll(s.log) == LoggedOf(s.commits) + ReplayAll(LogInFlight(s))
  {
    ReplayAppends(LogOf(s.commits), LogInFlight(s));
    LogReplays(s.commits);
  }

  /** A group that fails after its record was written adds nothing only if it is empty. */
  predicate AppliedAsLogged(c: Commit) {
    c.logged && c.status.Failed? ==> c.ops == []
  }

  /** When no group is in progress, replaying the log rebuilds the memtable
      exactly when every group that is in the log succeeded or was empty. */
  lemma LogReplaysToMemIff(s: State)
    requires Inv(s) && s.leader.NoLeader?
    ensures s.mem == ReplayAll(s.log) <==> forall k :: 0 <= k < |s.commits| ==> AppliedAsLogged(s.commits[k])
  {
    LogReplaysToGroups(s);
    assert s.mem == MemOf(s.commits) + [] && LoggedOf(s.commits) + [] == LoggedOf(s.commits);
    forall k | 0 <= k < |s.commits| ensures Differs(s.commits[k]) {
      assert CommitOk(s, k);
      OneCommitDiffers(s, k);
    }
    MemAndLog(s.commits);
  }

  /** What one group applied is what it logged, or a failed group's operations less. */
  predicate Differs(c: Commit) {
    if AppliedAsLogged(c) then Applied(c) == LoggedRecords(c) else |Applied(c)| < |LoggedRecords(c)|
  }

  lemma OneCommitDiffers(s: State, k: nat)
    requires k < |s.commits| && CommitOk(s, k)
    ensures Differs(s.commits[k])
  {
    var c := s.commits[k];
    if c.status.Ok? && !c.logged {
      OneNullWriter(Requests(s, c.writers));
    }
  }

  lemma {:induction false} MemAndLog(commits: seq<Commit>)
    requires forall k :: 0 <= k < |commits| ==> Differs(commits[k])
    ensures |MemOf(commits)| <= |LoggedOf(commits)|
    ensures (forall k :: 0 <= k < |commits| ==> AppliedAsLogged(commits[k])) ==> MemOf(commits) == LoggedOf(commits)
    ensures !(forall k :: 0 <= k < |commits| ==> AppliedAsLogged(commits[k])) ==>
      |MemOf(commits)| < |LoggedOf(commits)|
  {
    if commits != [] {
      var n := |commits| - 1;
      var before := commits[..n];
      assert forall k :: 0 <= k < n ==> before[k] == commits[k];
      MemAndLog(before);
      assert Differs(commits[n]);
    }
  }

  lemma LogGrows(commits: seq<Commit>, k: nat)
    requires k < |commits|
    ensures var c := commits[k];
      LogOf(commits[..k + 1]) == LogOf(commits[..k]) + if c.logged then [LogRecord(c.first, c.ops)] else []
  {
    assert commits[..k + 1][..k] == commits[..k];
  }

  lemma LogIsPrefix(commits: seq<Commit>, k: nat, n: nat)
    requires k <= n <= |commits|
    ensures LogOf(commits[..k]) <= LogOf(commits[..n])
  {
    var first := LogOf(commits[..k]);
    var p := (i: nat) => i <= |commits| && first <= LogOf(commits[..i]);
    forall i | k <= i < n && p(i) ensures p(i + 1) {
      LogGrows(commits, i);
    }
    UpFrom(p, k, n);
  }

  /** Where the record of a logged group stands in the log. */
  lemma RecordOfCommit(s: State, k: nat)
    requires StoreInv(s) && k < |s.commits| && s.commits[k].logged
    ensures var j := |LogOf(s.commits[..k])|;
      && j < |s.log| && s.log[..j] == LogOf(s.commits[..k])
      && s.log[j] == LogRecord(s.commits[k].first, s.commits[k].ops)
  {
    LogGrows(s.commits, k);
    LogIsPrefix(s.commits, k + 1, |s.commits|);
    assert s.commits[..|s.commits|] == s.commits;
  }

  /** The batch of a write that returned OK stands in the log record of its group. */
  lemma BatchInLog(s: State, id: WriterId, batch: seq<Operation>) returns (k: nat, j: nat, from: nat)
    requires Reachable(s) && id in s.done && s.done[id].Ok?
    requires id in s.requests && s.requests[id].batch == Some(batch)
    ensures k < |s.commits| && id in s.commits[k].writers
    ensures j == |LogOf(s.commits[..k])| < |s.log| && Holds(s.log[j].ops, from, batch)
  {
    ReachableHasInv(s);
    var i;
    k, i, from := OkBatch(s, id, batch);
    RecordOfCommit(s, k);
    j := |LogOf(s.commits[..k])|;
  }
}
