/** The threads inside `Write`, each with its own place in the code: whoever is
    past the wait loop is alone there and is the front of the queue.  Seen from
    the queue, every step of a thread is a step of `GroupCommits`. */
module WriterQueues {
  import opened InternalKeys
  import opened WriteBatches
  import opened GroupCommits
  import opened Inductions

  /** Where a thread is: in the wait loop, past it, or gone.  `last` is its
      local `last_writer`. */
  datatype Phase =
    | Waiting
    | Working(progress: Leader, last: WriterId)
    | Returned(status: Status)

  datatype Threads = Threads(
    requests: map<WriterId, Request>,
    phases: map<WriterId, Phase>,
    queue: seq<WriterId>,
    done: map<WriterId, Status>,
    lastSequence: nat,
    log: seq<LogRecord>,
    mem: seq<Record>,
    failed: bool,
    arrived: seq<WriterId>,
    commits: seq<Commit>)

  /** The steps of thread `id`. */
  datatype Move =
    | Call(request: Request)
    | Proceed
    | Wake
    | FailRoom
    | MakeRoom(size: nat)
    | Append(ok: bool, written: bool)
    | SyncLog(ok: bool)
    | InsertOne
    | Leave(size: nat)
    | OtherFailure

  ghost predicate Start(t: Threads) {
    t == Threads(map[], map[], [], map[], 0, [], [], false, [], [])
  }

  predicate IsWorking(t: Threads, id: WriterId) {
    id in t.phases && t.phases[id].Working?
  }

  function Moved(t: Threads, id: WriterId, progress: Leader, last: WriterId): Threads {
    t.(phases := t.phases[id := Working(progress, last)])
  }

  predicate Called(t: Threads, id: WriterId, request: Request, t': Threads) {
    && id !in t.requests
    && t' == t.(requests := t.requests[id := request], phases := t.phases[id := Waiting],
                queue := t.queue + [id], arrived := t.arrived + [id])
  }

  /** Out of the wait loop: not done, and at the front. */
  predicate Proceeded(t: Threads, id: WriterId, t': Threads) {
    && id in t.phases && t.phases[id].Waiting?
    && id !in t.done && t.queue != [] && t.queue[0] == id
    && t' == Moved(t, id, MakingRoom, id)
  }

  /** Out of the wait loop: done by someone else. */
  predicate Woken(t: Threads, id: WriterId, t': Threads) {
    && id in t.phases && t.phases[id].Waiting? && id in t.done
    && t' == t.(phases := t.phases[id := Returned(t.done[id])])
  }

  predicate RoomFailedFor(t: Threads, id: WriterId, t': Threads) {
    && IsWorking(t, id) && t.phases[id].progress.MakingRoom?
    && t' == Moved(t, id, Finishing(Group(1, t.lastSequence + 1, []), Failed, false, false), t.phases[id].last)
  }

  predicate AllRequested(t: Threads) {
    forall i :: 0 <= i < |t.queue| ==> t.queue[i] in t.requests
  }

  function QueuedRequests(t: Threads): (r: seq<Request>)
    requires AllRequested(t)
    ensures |r| == |t.queue|
  {
    seq(|t.queue|, i requires 0 <= i < |t.queue| => t.requests[t.queue[i]])
  }

  /** The group starts with whoever is at the front of the queue. */
  predicate RoomMadeFor(t: Threads, id: WriterId, size: nat, t': Threads) {
    && IsWorking(t, id) && t.phases[id].progress.MakingRoom? && !t.failed && id in t.requests
    && if t.requests[id].batch.None? then
         t' == Moved(t, id, Finishing(Group(1, t.lastSequence + 1, []), Ok, false, false), t.phases[id].last)
       else
         && AllRequested(t)
         && IsGroup(QueuedRequests(t), size)
         && t' == Moved(t, id, Logging(Group(size, t.lastSequence + 1, GroupOps(QueuedRequests(t), size))),
                        t.queue[size - 1])
  }

  predicate AppendedBy(t: Threads, id: WriterId, ok: bool, written: bool, t': Threads) {
    && IsWorking(t, id) && t.phases[id].progress.Logging? && (ok ==> written) && id in t.requests
    && var g := t.phases[id].progress.group;
       var next := if !ok then Finishing(g, Failed, written, false)
                   else if t.requests[id].sync then Syncing(g)
                   else Inserting(g, 0);
       t' == Moved(t, id, next, t.phases[id].last)
             .(log := if written then t.log + [LogRecord(g.first, g.ops)] else t.log)
  }

  predicate SyncedBy(t: Threads, id: WriterId, ok: bool, t': Threads) {
    && IsWorking(t, id) && t.phases[id].progress.Syncing?
    && var g := t.phases[id].progress.group;
       t' == Moved(t, id, if ok then Inserting(g, 0) else Finishing(g, Failed, true, true), t.phases[id].last)
  }

  predicate InsertedBy(t: Threads, id: WriterId, t': Threads) {
    && IsWorking(t, id) && t.phases[id].progress.Inserting?
    && var Inserting(g, i) := t.phases[id].progress;
       if i < |g.ops| then
         t' == Moved(t, id, Inserting(g, i + 1), t.phases[id].last).(mem := t.mem + [Record(g.first + i, g.ops[i])])
       else
         t' == Moved(t, id, Finishing(g, Ok, true, false), t.phases[id].last)
  }

  /** The status goes to every popped writer but the thread itself. */
  function WakeAll(done: map<WriterId, Status>, ids: seq<WriterId>, self: WriterId,
                   status: Status): map<WriterId, Status> {
    if ids == [] then done
    else
      var before := WakeAll(done, ids[..|ids| - 1], self, status);
      if ids[|ids| - 1] == self then before else before[ids[|ids| - 1] := status]
  }

  /** Publishes the sequence number and pops the queue up to `last_writer`. */
  predicate LeftBy(t: Threads, id: WriterId, size: nat, t': Threads) {
    && IsWorking(t, id) && t.phases[id].progress.Finishing?
    && 1 <= size <= |t.queue| && t.queue[size - 1] == t.phases[id].last
    && (forall i :: 0 <= i < size - 1 ==> t.queue[i] != t.phases[id].last)
    && id in t.requests
    && var Finishing(g, status, logged, syncError) := t.phases[id].progress;
       && t'.lastSequence + 1 == g.first + |g.ops|
       && t' == t.(failed := t.failed || syncError,
                   lastSequence := t'.lastSequence,
                   queue := t.queue[size..],
                   done := WakeAll(t.done, t.queue[..size], id, status),
                   phases := t.phases[id := Returned(status)],
                   commits := t.commits + [Commit(t.queue[..size], g.first, g.ops, status, logged,
                                                  logged && status.Ok? && t.requests[id].sync)])
  }

  predicate MoveOf(t: Threads, id: WriterId, m: Move, t': Threads) {
    match m
    case Call(request) => Called(t, id, request, t')
    case Proceed => Proceeded(t, id, t')
    case Wake => Woken(t, id, t')
    case FailRoom => RoomFailedFor(t, id, t')
    case MakeRoom(size) => RoomMadeFor(t, id, size, t')
    case Append(ok, written) => AppendedBy(t, id, ok, written, t')
    case SyncLog(ok) => SyncedBy(t, id, ok, t')
    case InsertOne => InsertedBy(t, id, t')
    case Leave(size) => LeftBy(t, id, size, t')
    case OtherFailure => t' == t.(failed := true)
  }

  // ---------------------------------------------------------------------
  // Seen from the queue
  // ---------------------------------------------------------------------

  function LeaderIn(phases: map<WriterId, Phase>, queue: seq<WriterId>): Leader {
    if queue != [] && queue[0] in phases && phases[queue[0]].Working? then phases[queue[0]].progress else NoLeader
  }

  /** Who has a status: woken writers and those that returned. */
  function Statuses(phases: map<WriterId, Phase>, done: map<WriterId, Status>): map<WriterId, Status> {
    map id | id in phases && (phases[id].Returned? || id in done) ::
      if phases[id].Returned? then phases[id].status else done[id]
  }

  function View(t: Threads): State {
    State(t.requests, t.queue, Statuses(t.phases, t.done), LeaderIn(t.phases, t.queue), t.lastSequence, t.log, t.mem,
          t.failed, t.arrived, t.commits)
  }

  function ActionOf(m: Move, id: WriterId): Option<Action> {
    match m
    case Call(request) => Some(Enqueue(id, request))
    case Proceed => Some(Lead)
    case Wake => None
    case FailRoom => Some(RoomFails)
    case MakeRoom(size) => Some(RoomMade(size))
    case Append(ok, written) => Some(AddRecord(ok, written))
    case SyncLog(ok) => Some(Sync(ok))
    case InsertOne => Some(Insert)
    case Leave(_) => Some(Finish)
    case OtherFailure => Some(BackgroundError)
  }

  /** Only the front of the queue is past the wait loop. */
  ghost predicate OnlyFrontWorks(t: Threads) {
    forall id :: IsWorking(t, id) ==> t.queue != [] && t.queue[0] == id
  }

  function GroupOf(l: Leader): Option<Group> {
    match l
    case Logging(g) => Some(g)
    case Syncing(g) => Some(g)
    case Inserting(g, _) => Some(g)
    case Finishing(g, _, _, _) => Some(g)
    case _ => None
  }

  /** The `last_writer` of the thread at work is the end of its group. */
  predicate LastWriterOk(queue: seq<WriterId>, lastSequence: nat, id: WriterId, progress: Leader, last: WriterId) {
    && !progress.NoLeader?
    && match GroupOf(progress)
       case None => last == id
       case Some(g) => 1 <= g.size <= |queue| && last == queue[g.size - 1] && g.first == lastSequence + 1
  }

  predicate FrontOk(t: Threads) {
    t.queue != [] && IsWorking(t, t.queue[0]) ==>
      LastWriterOk(t.queue, t.lastSequence, t.queue[0], t.phases[t.queue[0]].progress, t.phases[t.queue[0]].last)
  }

  ghost predicate PhasesOk(t: Threads) {
    && (forall id :: id in t.phases <==> id in t.requests)
    && (forall id :: id in t.done ==> id in t.phases && !t.phases[id].Working?
                                      && (t.phases[id].Returned? ==> t.phases[id].status == t.done[id]))
  }

  ghost predicate Local(t: Threads) {
    OnlyFrontWorks(t) && FrontOk(t) && PhasesOk(t)
  }

  ghost predicate ThreadsInv(t: Threads) {
    Inv(View(t)) && Local(t)
  }

  /** Queued writers are different and have no status yet. */
  ghost predicate QueueIsFresh(t: Threads) {
    && NoDuplicates(t.queue)
    && forall i :: 0 <= i < |t.queue| ==>
         t.queue[i] in t.requests && t.queue[i] in t.phases && t.queue[i] !in t.done && !t.phases[t.queue[i]].Returned?
  }

  lemma InvMakesFresh(t: Threads)
    requires ThreadsInv(t)
    ensures QueueIsFresh(t)
  {
    QueueHasNoStatus(View(t));
    forall i | 0 <= i < |t.queue|
      ensures t.queue[i] in t.requests && t.queue[i] in t.phases
      ensures t.queue[i] !in t.done && !t.phases[t.queue[i]].Returned?
    {
      assert t.queue[i] !in Statuses(t.phases, t.done);
    }
  }

  lemma QueueHasNoStatus(s: State)
    requires QueueInv(s)
    ensures NoDuplicates(s.queue)
    ensures forall i :: 0 <= i < |s.queue| ==> s.queue[i] in s.requests && s.queue[i] !in s.done
  {
    var front := WritersOf(s.commits);
    QueueNotDone(s, |s.queue|);
    QueueIsKnown(s);
    forall i, j | 0 <= i < j < |s.queue| ensures s.queue[i] != s.queue[j] {
      assert s.arrived[|front| + i] == s.queue[i] && s.arrived[|front| + j] == s.queue[j];
    }
  }

  /** Seen from the queue, the step of a thread is a step of the queue, or none. */
  ghost predicate IsQueueStep(t: Threads, id: WriterId, m: Move, t': Threads) {
    match ActionOf(m, id)
    case None => View(t') == View(t)
    case Some(a) => Step(View(t), a, View(t'))
  }

  lemma StartHasInv(t: Threads)
    requires Start(t)
    ensures ThreadsInv(t) && Init(View(t))
  {
    assert Statuses(t.phases, t.done) == map[];
    InitHasInv(View(t));
  }

  lemma CallIsEnqueue(t: Threads, id: WriterId, request: Request, t': Threads)
    requires Local(t) && QueueIsFresh(t) && Called(t, id, request, t')
    ensures IsQueueStep(t, id, Call(request), t') && Local(t')
  {
    assert id !in t.phases && id !in t.done;
    assert Statuses(t'.phases, t'.done) == Statuses(t.phases, t.done);
    if t.queue == [] {
      assert LeaderIn(t'.phases, t'.queue) == NoLeader;
    } else {
      assert t'.queue[0] == t.queue[0] != id;
    }
    forall w | IsWorking(t', w) ensures t'.queue[0] == w {
      assert IsWorking(t, w);
    }
  }

  lemma ProceedIsLead(t: Threads, id: WriterId, t': Threads)
    requires Local(t) && Proceeded(t, id, t')
    ensures IsQueueStep(t, id, Proceed, t') && Local(t')
  {
    assert Statuses(t'.phases, t'.done) == Statuses(t.phases, t.done);
    forall w | IsWorking(t', w) ensures t'.queue[0] == w {
      assert w == id || IsWorking(t, w);
    }
  }

  lemma WakeIsNothing(t: Threads, id: WriterId, t': Threads)
    requires Local(t) && QueueIsFresh(t) && Woken(t, id, t')
    ensures IsQueueStep(t, id, Wake, t') && Local(t')
  {
    assert Statuses(t'.phases, t'.done) == Statuses(t.phases, t.done);
    forall w | IsWorking(t', w) ensures t'.queue != [] && t'.queue[0] == w {
      assert IsWorking(t, w);
    }
    assert t.queue != [] ==> t.queue[0] != id;
  }

  /** A thread at work that only changes its own progress changes only the leader. */
  lemma MovedView(t: Threads, id: WriterId, progress: Leader, last: WriterId)
    requires Local(t) && IsWorking(t, id)
    ensures t.queue != [] && t.queue[0] == id
    ensures View(Moved(t, id, progress, last)) == View(t).(leader := progress)
    ensures View(t).leader == t.phases[id].progress
    ensures LastWriterOk(t.queue, t.lastSequence, id, t.phases[id].progress, t.phases[id].last)
    ensures LastWriterOk(t.queue, t.lastSequence, id, progress, last) ==> Local(Moved(t, id, progress, last))
  {
    var t' := Moved(t, id, progress, last);
    assert Statuses(t'.phases, t.done) == Statuses(t.phases, t.done);
    forall w | IsWorking(t', w) ensures t'.queue[0] == w {
      assert IsWorking(t, w);
    }
  }

  /** The same when it also writes to the log or the memtable. */
  lemma MovedTo(t: Threads, id: WriterId, t': Threads, progress: Leader, last: WriterId)
    requires Local(t) && IsWorking(t, id)
    requires t' == Moved(t, id, progress, last).(log := t'.log, mem := t'.mem)
    ensures t.queue != [] && t.queue[0] == id
    ensures View(t') == View(t).(leader := progress, log := t'.log, mem := t'.mem)
    ensures View(t).leader == t.phases[id].progress
    ensures LastWriterOk(t.queue, t.lastSequence, id, t.phases[id].progress, t.phases[id].last)
    ensures LastWriterOk(t.queue, t.lastSequence, id, progress, last) ==> Local(t')
  {
    MovedView(t, id, progress, last);
    if LastWriterOk(t.queue, t.lastSequence, id, progress, last) {
      LogAndMemAreNotLocal(Moved(t, id, progress, last), t');
    }
  }

  lemma LogAndMemAreNotLocal(t: Threads, t': Threads)
    requires Local(t) && t' == t.(log := t'.log, mem := t'.mem)
    ensures Local(t')
  {
    assert forall id :: IsWorking(t', id) == IsWorking(t, id);
  }

  lemma FailRoomIsRoomFails(t: Threads, id: WriterId, t': Threads)
    requires Local(t) && RoomFailedFor(t, id, t')
    ensures IsQueueStep(t, id, FailRoom, t') && Local(t')
  {
    MovedTo(t, id, t', t'.phases[id].progress, t'.phases[id].last);
  }

  lemma MakeRoomIsRoomMade(t: Threads, id: WriterId, size: nat, t': Threads)
    requires Local(t) && QueueIsFresh(t) && RoomMadeFor(t, id, size, t')
    ensures IsQueueStep(t, id, MakeRoom(size), t') && Local(t')
  {
    var next, last := t'.phases[id].progress, t'.phases[id].last;
    MovedTo(t, id, t', next, last);
    if t.requests[id].batch.Some? {
      LastOfGroup(t, id, size, next);
    }
    RoomMadeView(View(t), t, id, size, View(t'), next);
  }

  lemma RoomMadeView(s: State, t: Threads, id: WriterId, size: nat, s': State, next: Leader)
    requires s.leader.MakingRoom? && !s.failed && s.requests == t.requests && s.queue == t.queue
    requires s.lastSequence == t.lastSequence
    requires t.queue != [] && t.queue[0] == id && AllRequested(t) && s' == s.(leader := next)
    requires if t.requests[id].batch.None? then next == Finishing(Group(1, t.lastSequence + 1, []), Ok, false, false)
             else IsGroup(QueuedRequests(t), size)
                  && next == Logging(Group(size, t.lastSequence + 1, GroupOps(QueuedRequests(t), size)))
    ensures RoomWasMade(s, size, s')
  {
    assert Known(s, s.queue) && Requests(s, s.queue) == QueuedRequests(t);
  }

  lemma LastOfGroup(t: Threads, id: WriterId, size: nat, next: Leader)
    requires AllRequested(t) && IsGroup(QueuedRequests(t), size)
    requires next.Logging? && next.group.size == size && next.group.first == t.lastSequence + 1
    ensures LastWriterOk(t.queue, t.lastSequence, id, next, t.queue[size - 1])
  {
  }

  lemma AppendIsAddRecord(t: Threads, id: WriterId, ok: bool, written: bool, t': Threads)
    requires Local(t) && AppendedBy(t, id, ok, written, t')
    ensures IsQueueStep(t, id, Append(ok, written), t') && Local(t')
  {
    MovedTo(t, id, t', t'.phases[id].progress, t'.phases[id].last);
  }

  lemma SyncLogIsSync(t: Threads, id: WriterId, ok: bool, t': Threads)
    requires Local(t) && SyncedBy(t, id, ok, t')
    ensures IsQueueStep(t, id, SyncLog(ok), t') && Local(t')
  {
    MovedTo(t, id, t', t'.phases[id].progress, t'.phases[id].last);
  }

  lemma InsertOneIsInsert(t: Threads, id: WriterId, t': Threads)
    requires Local(t) && InsertedBy(t, id, t')
    ensures IsQueueStep(t, id, InsertOne, t') && Local(t')
  {
    var Inserting(g, i) := t.phases[id].progress;
    var next := if i < |g.ops| then Inserting(g, i + 1) else Finishing(g, Ok, true, false);
    InsertedMoves(t, id, t', g, i, next);
    InsertedView(View(t), g, i, next, View(t'));
  }

  lemma InsertedMoves(t: Threads, id: WriterId, t': Threads, g: Group, i: nat, next: Leader)
    requires Local(t) && IsWorking(t, id) && t.phases[id].progress == Inserting(g, i) && GroupOf(next) == Some(g)
    requires t' == Moved(t, id, next, t.phases[id].last).(mem := t'.mem)
    ensures View(t).leader == Inserting(g, i) && View(t') == View(t).(leader := next, mem := t'.mem) && Local(t')
  {
    MovedTo(t, id, t', next, t.phases[id].last);
  }

  lemma InsertedView(s: State, g: Group, i: nat, next: Leader, s': State)
    requires s.leader == Inserting(g, i) && s' == s.(leader := next, mem := s'.mem)
    requires if i < |g.ops| then next == Inserting(g, i + 1) && s'.mem == s.mem + [Record(g.first + i, g.ops[i])]
             else next == Finishing(g, Ok, true, false) && s'.mem == s.mem
    ensures Step(s, Insert, s')
  {
  }

  lemma {:induction false} WakeAllAt(done: map<WriterId, Status>, ids: seq<WriterId>, self: WriterId, status: Status)
    ensures forall id :: id in WakeAll(done, ids, self, status) <==> id in done || (id in ids && id != self)
    ensures forall id :: id in ids && id != self ==> WakeAll(done, ids, self, status)[id] == status
    ensures forall id :: id in done && id !in ids ==> WakeAll(done, ids, self, status)[id] == done[id]
  {
    if ids != [] {
      var n := |ids| - 1;
      WakeAllAt(done, ids[..n], self, status);
      assert ids == ids[..n] + [ids[n]];
    }
  }

  /** The writers popped get the group's status. */
  lemma LeaveWakes(phases: map<WriterId, Phase>, done: map<WriterId, Status>, ids: seq<WriterId>, id: WriterId,
                   status: Status)
    requires id in ids
    requires forall i :: 0 <= i < |ids| ==> ids[i] in phases && ids[i] !in done && !phases[ids[i]].Returned?
    ensures Statuses(phases[id := Returned(status)], WakeAll(done, ids, id, status))
         == WithStatus(Statuses(phases, done), ids, status)
  {
    WakeAllAt(done, ids, id, status);
    WithStatusAt(Statuses(phases, done), ids, status);
  }

  /** `last_writer` is met at the end of the group, and not before. */
  lemma PopsTheGroup(t: Threads, id: WriterId, size: nat)
    requires Local(t) && QueueIsFresh(t) && IsWorking(t, id) && t.phases[id].progress.Finishing?
    requires 1 <= size <= |t.queue| && t.queue[size - 1] == t.phases[id].last
    ensures t.queue[0] == id && size == t.phases[id].progress.group.size
    ensures t.phases[id].progress.group.first == t.lastSequence + 1
  {
    var g := t.phases[id].progress.group;
    assert t.queue[g.size - 1] == t.queue[size - 1];
  }

  lemma LeaveIsFinish(t: Threads, id: WriterId, size: nat, t': Threads)
    requires Local(t) && QueueIsFresh(t) && LeftBy(t, id, size, t')
    ensures IsQueueStep(t, id, Leave(size), t')
  {
    PopsTheGroup(t, id, size);
    assert id == t.queue[..size][0];
    LeaveWakes(t.phases, t.done, t.queue[..size], id, t.phases[id].progress.status);
    NobodyWorks(t, id, size, t');
  }

  /** When the thread at work has left, every other one is still waiting or gone. */
  lemma NobodyWorks(t: Threads, id: WriterId, size: nat, t': Threads)
    requires Local(t) && QueueIsFresh(t) && LeftBy(t, id, size, t')
    ensures forall w :: !IsWorking(t', w)
    ensures LeaderIn(t'.phases, t'.queue) == NoLeader
  {
    assert IsWorking(t, id);
    forall w ensures !IsWorking(t', w) {
      assert IsWorking(t, w) ==> w == id;
    }
    assert t'.queue != [] ==> !IsWorking(t', t'.queue[0]);
  }

  lemma LeaveKeepsLocal(t: Threads, id: WriterId, size: nat, t': Threads)
    requires Local(t) && QueueIsFresh(t) && LeftBy(t, id, size, t')
    ensures Local(t')
  {
    PopsTheGroup(t, id, size);
    NobodyWorks(t, id, size, t');
    WakeAllAt(t.done, t.queue[..size], id, t.phases[id].progress.status);
    forall w | w in t'.done
      ensures w in t'.phases && !t'.phases[w].Working?
      ensures t'.phases[w].Returned? ==> t'.phases[w].status == t'.done[w]
    {
      assert !IsWorking(t', w);
      if w in t.queue[..size] && w != id {
        var i :| 0 <= i < size && t.queue[i] == w;
      }
    }
  }

  lemma OtherFailureIsBackgroundError(t: Threads, id: WriterId, t': Threads)
    requires Local(t) && t' == t.(failed := true)
    ensures IsQueueStep(t, id, OtherFailure, t') && Local(t')
  {
    assert forall id :: IsWorking(t', id) == IsWorking(t, id);
  }

  lemma MoveIsStep(t: Threads, id: WriterId, m: Move, t': Threads)
    requires Local(t) && QueueIsFresh(t) && MoveOf(t, id, m, t')
    ensures Local(t') && IsQueueStep(t, id, m, t')
  {
    match m
    case Call(request) => CallIsEnqueue(t, id, request, t');
    case Proceed => ProceedIsLead(t, id, t');
    case Wake => WakeIsNothing(t, id, t');
    case FailRoom => FailRoomIsRoomFails(t, id, t');
    case MakeRoom(size) => MakeRoomIsRoomMade(t, id, size, t');
    case Append(ok, written) => AppendIsAddRecord(t, id, ok, written, t');
    case SyncLog(ok) => SyncLogIsSync(t, id, ok, t');
    case InsertOne => InsertOneIsInsert(t, id, t');
    case Leave(size) => LeaveIsFinish(t, id, size, t'); LeaveKeepsLocal(t, id, size, t');
    case OtherFailure => OtherFailureIsBackgroundError(t, id, t');
  }

  /** Every step of a thread keeps the invariant and is a step of the queue, or none. */
  lemma MoveKeepsInv(t: Threads, id: WriterId, m: Move, t': Threads)
    requires ThreadsInv(t) && MoveOf(t, id, m, t')
    ensures ThreadsInv(t') && IsQueueStep(t, id, m, t')
  {
    InvMakesFresh(t);
    MoveIsStep(t, id, m, t');
    if !m.Wake? {
      StepKeepsInv(View(t), ActionOf(m, id).value, View(t'));
    }
  }

  // ---------------------------------------------------------------------
  // Every run
  // ---------------------------------------------------------------------

  predicate MovesAt(states: seq<Threads>, moves: seq<(WriterId, Move)>, i: nat)
    requires i < |moves| && i + 1 < |states|
  {
    MoveOf(states[i], moves[i].0, moves[i].1, states[i + 1])
  }

  ghost predicate IsRunOf(states: seq<Threads>, moves: seq<(WriterId, Move)>) {
    && |states| == |moves| + 1
    && Start(states[0])
    && forall i :: 0 <= i < |moves| ==> MovesAt(states, moves, i)
  }

  lemma MoveAtCarriesInv(states: seq<Threads>, moves: seq<(WriterId, Move)>, i: nat)
    requires i < |moves| && i + 1 < |states| && MovesAt(states, moves, i)
    ensures Carries(t => ThreadsInv(t), states, i)
  {
    if ThreadsInv(states[i]) {
      MoveKeepsInv(states[i], moves[i].0, moves[i].1, states[i + 1]);
    }
  }

  lemma RunKeepsThreadsInv(states: seq<Threads>, moves: seq<(WriterId, Move)>, n: nat)
    requires IsRunOf(states, moves) && n < |states|
    ensures ThreadsInv(states[n])
  {
    var p := t => ThreadsInv(t);
    StartHasInv(states[0]);
    forall i | 0 <= i < |moves| ensures Carries(p, states, i) {
      assert MovesAt(states, moves, i);
      MoveAtCarriesInv(states, moves, i);
    }
    Always(p, states, n);
  }

  /** In every run at most one thread is past its wait, it is the front of the
      queue, and whoever changes the log, the memtable or the published sequence
      number, or pops the queue, is that thread. */
  lemma OnlyTheFrontWrites(states: seq<Threads>, moves: seq<(WriterId, Move)>, n: nat)
    requires IsRunOf(states, moves) && n < |moves|
    ensures forall id :: IsWorking(states[n], id) ==> states[n].queue != [] && id == states[n].queue[0]
    ensures var t, t' := states[n], states[n + 1];
      t'.log != t.log || t'.mem != t.mem || t'.lastSequence != t.lastSequence || |t'.queue| < |t.queue| ==>
        IsWorking(t, moves[n].0)
  {
    RunKeepsThreadsInv(states, moves, n);
    assert MovesAt(states, moves, n);
  }

  /** The batch of writer `id` stands at `at` in group `k`, which was logged,
      applied and, if the writer asked for it, synced. */
  ghost predicate Durable(t: Threads, id: WriterId, batch: seq<Operation>, k: nat, i: nat, at: nat) {
    && k < |t.commits| && i < |t.commits[k].writers| && t.commits[k].writers[i] == id
    && LogRecord(t.commits[k].first, t.commits[k].ops) in t.log
    && Holds(t.commits[k].ops, at, batch)
    && Holds(t.mem, |MemOf(t.commits[..k])| + at, Records(t.commits[k].first + at, batch))
    && (id in t.requests && t.requests[id].sync ==> t.commits[k].synced)
  }

  lemma ReturnedOkWasLogged(t: Threads, id: WriterId, batch: seq<Operation>) returns (k: nat, i: nat, at: nat)
    requires ThreadsInv(t)
    requires id in t.phases && t.phases[id] == Returned(Ok)
    requires id in t.requests && t.requests[id].batch == Some(batch)
    ensures Durable(t, id, batch, k, i, at)
  {
    assert View(t).done[id] == Ok;
    k, i, at := DoneIsDurable(t, id, batch);
  }

  lemma DoneIsDurable(t: Threads, id: WriterId, batch: seq<Operation>) returns (k: nat, i: nat, at: nat)
    requires Inv(View(t)) && id in View(t).done && View(t).done[id] == Ok
    requires id in t.requests && t.requests[id].batch == Some(batch)
    ensures Durable(t, id, batch, k, i, at)
  {
    k, i, at := OkIsLoggedAndApplied(View(t), id, batch);
  }

  /** A call of `Write` that returned OK was logged, applied and, if it asked for
      it, synced. */
  lemma ReturnedOkIsDurable(states: seq<Threads>, moves: seq<(WriterId, Move)>, n: nat, id: WriterId,
                            batch: seq<Operation>)
    returns (k: nat, i: nat, at: nat)
    requires IsRunOf(states, moves) && n < |states|
    requires id in states[n].phases && states[n].phases[id] == Returned(Ok)
    requires id in states[n].requests && states[n].requests[id].batch == Some(batch)
    ensures Durable(states[n], id, batch, k, i, at)
  {
    RunKeepsThreadsInv(states, moves, n);
    k, i, at := ReturnedOkWasLogged(states[n], id, batch);
  }
}
