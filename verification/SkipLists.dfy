/** The memtable's skip list: one writer, any number of lock-free readers, under
    sequential consistency.  Every load and store of a link is a step of its own.

    A node is named by its key (keys are distinct), a key by its rank. */
module SkipLists {
  import opened InternalKeys

  type Key = int
  type ReaderId = nat

  const MAX_HEIGHT: nat := 12

  datatype Node = Head | Inner(key: Key)

  /** The searches: FindGreaterOrEqual, FindLessThan and FindLast. */
  datatype Search = GreaterOrEqual(target: Key) | LessThan(target: Key) | Last

  datatype Reader =
    | Reading(search: Search, x: Node, level: nat)
    | Done(search: Search, at: Node, next: Option<Key>)

  datatype Writer =
    | Idle
    | Searching(key: Key, x: Node, level: nat, prev: map<nat, Node>)
    | Found(key: Key, prev: map<nat, Node>)
    | Linking(key: Key, prev: map<nat, Node>, height: nat, level: nat, prepared: bool)

  /** next[l][n] is the level-l link of node n.  `linked` is an auxiliary
      variable: the keys published at each level so far. */
  datatype State = State(
    maxHeight: nat,
    next: seq<map<Node, Option<Key>>>,
    linked: seq<set<Key>>,
    writer: Writer,
    readers: map<ReaderId, Reader>)

  datatype Action =
    | BeginInsert(key: Key)
    | SearchStep
    | ChooseHeight(height: nat)
    | PrepareLink
    | PublishLink
    | BeginRead(id: ReaderId, search: Search)
    | ReadStep(id: ReaderId)

  predicate Below(n: Node, k: Key) {
    n.Head? || n.key < k
  }

  /** Does the search move past `next`?  A null link counts as infinite. */
  predicate KeepsGoing(search: Search, next: Option<Key>) {
    match search
    case GreaterOrEqual(target) => next.Some? && next.value < target
    case LessThan(target) => next.Some? && next.value < target
    case Last => next.Some?
  }

  ghost predicate Init(s: State) {
    && s.maxHeight == 1
    && s.next == seq(MAX_HEIGHT, _ => map[Head := None])
    && s.linked == seq(MAX_HEIGHT, _ => {})
    && s.writer == Idle
    && s.readers == map[]
  }

  /** One load of a link, by a search standing at `x` on `level`. */
  function Load(s: State, level: nat, x: Node): Option<Key>
    requires level < |s.next| && x in s.next[level]
  {
    s.next[level][x]
  }

  predicate Loadable(s: State, level: nat, x: Node) {
    level < |s.next| && x in s.next[level]
  }

  predicate SearchStepped(s: State, s': State) {
    match s.writer
    case Searching(key, x, level, prev) =>
      && Loadable(s, level, x)
      && var next := Load(s, level, x);
         if next.Some? && next.value < key then
           s' == s.(writer := Searching(key, Inner(next.value), level, prev))
         else if level == 0 then
           s' == s.(writer := Found(key, prev[level := x]))
         else
           s' == s.(writer := Searching(key, x, level - 1, prev[level := x]))
    case _ => false
  }

  /** New levels start at the head. */
  function WithHeads(prev: map<nat, Node>, lo: nat, hi: nat): (r: map<nat, Node>)
    ensures forall l: nat :: l in r <==> l in prev || lo <= l < hi
    ensures forall l: nat :: l in r ==> r[l] == if lo <= l < hi then Head else prev[l]
    decreases hi - lo
  {
    if lo >= hi then prev else WithHeads(prev[lo := Head], lo + 1, hi)
  }

  predicate HeightChosen(s: State, height: nat, s': State) {
    match s.writer
    case Found(key, prev) =>
      && 1 <= height <= MAX_HEIGHT
      && var prev' := WithHeads(prev, s.maxHeight, height);
         s' == s.(maxHeight := if height > s.maxHeight then height else s.maxHeight,
                  writer := Linking(key, prev', height, 0, false))
    case _ => false
  }

  predicate LinkPrepared(s: State, s': State) {
    match s.writer
    case Linking(key, prev, height, level, prepared) =>
      && !prepared && level in prev && Loadable(s, level, prev[level])
      && s' == s.(next := s.next[level := s.next[level][Inner(key) := Load(s, level, prev[level])]],
                  writer := s.writer.(prepared := true))
    case _ => false
  }

  predicate LinkPublished(s: State, s': State) {
    match s.writer
    case Linking(key, prev, height, level, prepared) =>
      && prepared && level in prev && level < |s.next| && level < |s.linked|
      && s' == s.(next := s.next[level := s.next[level][prev[level] := Some(key)]],
                  linked := s.linked[level := s.linked[level] + {key}],
                  writer := if level + 1 == height then Idle
                            else Linking(key, prev, height, level + 1, false))
    case _ => false
  }

  predicate ReadStepped(s: State, id: ReaderId, s': State) {
    id in s.readers &&
    match s.readers[id]
    case Reading(search, x, level) =>
      && Loadable(s, level, x)
      && var next := Load(s, level, x);
         if KeepsGoing(search, next) then
           s' == s.(readers := s.readers[id := Reading(search, Inner(next.value), level)])
         else if level == 0 then
           s' == s.(readers := s.readers[id := Done(search, x, next)])
         else
           s' == s.(readers := s.readers[id := Reading(search, x, level - 1)])
    case _ => false
  }

  predicate Step(s: State, a: Action, s': State) {
    match a
    case BeginInsert(key) =>
      // Insert requires that no equal key is present.
      && s.writer.Idle? && s.linked != [] && key !in s.linked[0] && s.maxHeight > 0
      && s' == s.(writer := Searching(key, Head, s.maxHeight - 1, map[]))
    case SearchStep => SearchStepped(s, s')
    case ChooseHeight(height) => HeightChosen(s, height, s')
    case PrepareLink => LinkPrepared(s, s')
    case PublishLink => LinkPublished(s, s')
    case BeginRead(id, search) =>
      && (id !in s.readers || s.readers[id].Done?) && s.maxHeight > 0
      && s' == s.(readers := s.readers[id := Reading(search, Head, s.maxHeight - 1)])
    case ReadStep(id) => ReadStepped(s, id, s')
  }

  // ---------------------------------------------------------------------
  // The invariant
  // ---------------------------------------------------------------------

  /** `r` is the successor of node `n` in the set. */
  ghost predicate IsNext(keys: set<Key>, n: Node, r: Option<Key>) {
    && (r.Some? ==> r.value in keys && Below(n, r.value))
    && (forall k :: k in keys && Below(n, k) ==> r.Some? && r.value <= k)
  }

  predicate OnLevel(s: State, l: nat, n: Node)
    requires l < |s.linked|
  {
    n.Head? || n.key in s.linked[l]
  }

  /** `n` is the last node of level l before `key`. */
  ghost predicate IsPrev(s: State, l: nat, n: Node, key: Key)
    requires l < |s.linked|
  {
    && OnLevel(s, l, n)
    && Below(n, key)
    && forall k :: k in s.linked[l] && k < key ==> !Below(n, k)
  }

  /** Each level's links form the sorted list of the keys published there, and
      each level is part of the one below. */
  ghost predicate Levels(s: State) {
    && |s.next| == MAX_HEIGHT && |s.linked| == MAX_HEIGHT
    && 1 <= s.maxHeight <= MAX_HEIGHT
    && (forall l, n :: 0 <= l < MAX_HEIGHT && OnLevel(s, l, n) ==>
      n in s.next[l] && IsNext(s.linked[l], n, s.next[l][n]))
    && (forall l :: 0 <= l < MAX_HEIGHT - 1 ==> s.linked[l + 1] <= s.linked[l])
    && (forall l :: s.maxHeight <= l < MAX_HEIGHT ==> s.linked[l] == {})
  }

  ghost predicate WriterInv(s: State)
    requires |s.linked| == MAX_HEIGHT
  {
    match s.writer
    case Idle => true
    case Searching(key, x, level, prev) =>
      && level < s.maxHeight <= MAX_HEIGHT
      && OnLevel(s, level, x) && Below(x, key)
      && (forall l :: 0 <= l < MAX_HEIGHT ==> key !in s.linked[l])
      && (forall l :: level < l < s.maxHeight ==> l in prev && IsPrev(s, l, prev[l], key))
    case Found(key, prev) =>
      && s.maxHeight <= MAX_HEIGHT
      && (forall l :: 0 <= l < MAX_HEIGHT ==> key !in s.linked[l])
      && (forall l :: 0 <= l < s.maxHeight ==> l in prev && IsPrev(s, l, prev[l], key))
    case Linking(key, prev, height, level, prepared) =>
      && level < height <= s.maxHeight <= MAX_HEIGHT
      && (forall l :: 0 <= l < MAX_HEIGHT ==> (key in s.linked[l] <==> l < level))
      && (forall l :: level <= l < height ==> l in prev && IsPrev(s, l, prev[l], key))
      && (prepared ==>
            && |s.next| == MAX_HEIGHT
            && Inner(key) in s.next[level] && prev[level] in s.next[level]
            && s.next[level][Inner(key)] == s.next[level][prev[level]])
  }

  ghost predicate ReaderInv(s: State, r: Reader)
    requires |s.linked| == MAX_HEIGHT
  {
    r.Reading? ==>
      && r.level < MAX_HEIGHT
      && OnLevel(s, r.level, r.x)
      && (r.search.Last? || Below(r.x, r.search.target))
  }

  ghost predicate Inv(s: State) {
    && Levels(s)
    && WriterInv(s)
    && forall id :: id in s.readers ==> ReaderInv(s, s.readers[id])
  }

  lemma InitKeepsInv(s: State)
    requires Init(s)
    ensures Inv(s)
  {
    assert forall l :: 0 <= l < MAX_HEIGHT ==> s.linked[l] == {};
  }

  lemma SearchKeepsInv(s: State, s': State)
    requires Inv(s) && SearchStepped(s, s')
    ensures Inv(s')
  {
    var x, level := s.writer.x, s.writer.level;
    assert IsNext(s.linked[level], x, s.next[level][x]);
    assert level > 0 ==> s.linked[level] <= s.linked[level - 1];
  }

  lemma PublishKeepsLevels(s: State, s': State)
    requires Inv(s) && LinkPublished(s, s')
    ensures Levels(s')
  {
    var key, level := s.writer.key, s.writer.level;
    var prev := s.writer.prev[level];
    assert IsNext(s.linked[level], prev, s.next[level][prev]);
    forall n | OnLevel(s', level, n)
      ensures n in s'.next[level] && IsNext(s'.linked[level], n, s'.next[level][n])
    {
      if n != Inner(key) && n != prev {
        assert OnLevel(s, level, n);
        assert IsNext(s.linked[level], n, s.next[level][n]);
        if Below(n, key) {
          assert !prev.Head? && Below(n, prev.key);
        }
      }
    }
  }

  lemma PublishKeepsInv(s: State, s': State)
    requires Inv(s) && LinkPublished(s, s')
    ensures Inv(s')
  {
    PublishKeepsLevels(s, s');
    forall l, n | 0 <= l < MAX_HEIGHT && OnLevel(s, l, n) ensures OnLevel(s', l, n) {
    }
  }

  lemma PrepareKeepsInv(s: State, s': State)
    requires Inv(s) && LinkPrepared(s, s')
    ensures Inv(s')
  {
    var key, level := s.writer.key, s.writer.level;
    assert IsNext(s.linked[level], s.writer.prev[level], s.next[level][s.writer.prev[level]]);
    forall l, n | 0 <= l < MAX_HEIGHT && OnLevel(s', l, n)
      ensures n in s'.next[l] && s'.next[l][n] == s.next[l][n]
    {
      assert OnLevel(s, l, n);
    }
  }

  lemma ReaderMoves(s: State, id: ReaderId, s': State)
    requires Inv(s) && ReadStepped(s, id, s')
    ensures s' == s.(readers := s'.readers) && s'.readers == s.readers[id := s'.readers[id]]
    ensures ReaderInv(s, s'.readers[id])
  {
    var r := s.readers[id];
    assert IsNext(s.linked[r.level], r.x, s.next[r.level][r.x]);
    assert r.level > 0 ==> s.linked[r.level] <= s.linked[r.level - 1];
  }

  /** Nothing but the invariant of a reader depends on the readers. */
  lemma OnlyReadersChange(s: State, s': State)
    requires Levels(s) && WriterInv(s) && s' == s.(readers := s'.readers)
    requires forall id :: id in s'.readers ==> ReaderInv(s, s'.readers[id])
    ensures Inv(s')
  {
    assert forall l, n :: 0 <= l < MAX_HEIGHT ==> OnLevel(s', l, n) == OnLevel(s, l, n);
  }

  lemma ReadKeepsInv(s: State, id: ReaderId, s': State)
    requires Inv(s) && ReadStepped(s, id, s')
    ensures Inv(s')
  {
    ReaderMoves(s, id, s');
    OnlyReadersChange(s, s');
  }

  lemma BeginKeepsInv(s: State, key: Key, s': State)
    requires Inv(s) && Step(s, BeginInsert(key), s')
    ensures Inv(s')
  {
    KeyOnNoLevel(s, key, MAX_HEIGHT);
  }

  lemma StepKeepsInv(s: State, a: Action, s': State)
    requires Inv(s) && Step(s, a, s')
    ensures Inv(s')
  {
    match a
    case BeginInsert(key) => BeginKeepsInv(s, key, s');
    case SearchStep => SearchKeepsInv(s, s');
    case ChooseHeight(height) =>
    case PrepareLink => PrepareKeepsInv(s, s');
    case PublishLink => PublishKeepsInv(s, s');
    case BeginRead(id, search) => OnlyReadersChange(s, s');
    case ReadStep(id) => ReadKeepsInv(s, id, s');
  }

  lemma {:induction false} KeyOnNoLevel(s: State, key: Key, n: nat)
    requires Levels(s) && key !in s.linked[0] && n <= MAX_HEIGHT
    ensures forall l :: 0 <= l < n ==> key !in s.linked[l]
  {
    if n > 1 {
      KeyOnNoLevel(s, key, n - 1);
      assert s.linked[n - 2 + 1] <= s.linked[n - 2];
    }
  }

  ghost predicate IsRun(states: seq<State>, actions: seq<Action>) {
    && |states| == |actions| + 1
    && Init(states[0])
    && forall i :: 0 <= i < |actions| ==> Step(states[i], actions[i], states[i + 1])
  }

  lemma {:induction false} RunKeepsInv(states: seq<State>, actions: seq<Action>, i: nat)
    requires IsRun(states, actions) && i < |states|
    ensures Inv(states[i])
  {
    if i == 0 {
      InitKeepsInv(states[0]);
    } else {
      RunKeepsInv(states, actions, i - 1);
      StepKeepsInv(states[i - 1], actions[i - 1], states[i]);
    }
  }

  // ---------------------------------------------------------------------
  // What readers see
  // ---------------------------------------------------------------------

  /** The answer of a search in a set of keys: the node stopped at and its link. */
  ghost predicate IsAnswer(keys: set<Key>, search: Search, at: Node, next: Option<Key>) {
    && (at.Inner? ==> at.key in keys)
    && IsNext(keys, at, next)
    && match search
       case GreaterOrEqual(target) =>
         && (next.Some? ==> next.value in keys && next.value >= target)
         && (forall k :: k in keys && k >= target ==> next.Some? && next.value <= k)
       case LessThan(target) =>
         && Below(at, target)
         && (forall k :: k in keys && k < target ==> !Below(at, k))
       case Last =>
         forall k :: k in keys ==> !Below(at, k)
  }

  /** Whatever inserts ran in between, a search that finishes answers for the set
      of keys on level 0 at the moment of its last load. */
  lemma SearchIsLinearizable(states: seq<State>, actions: seq<Action>, i: nat, id: ReaderId)
    requires IsRun(states, actions) && i < |actions|
    requires actions[i] == ReadStep(id) && states[i + 1].readers[id].Done?
    ensures |states[i].linked| == MAX_HEIGHT
    ensures var r := states[i + 1].readers[id]; IsAnswer(states[i].linked[0], r.search, r.at, r.next)
  {
    RunKeepsInv(states, actions, i);
    var s := states[i];
    var r := s.readers[id];
    assert ReaderInv(s, r);
    assert IsNext(s.linked[0], r.x, s.next[0][r.x]);
  }

  ghost function After(keys: set<Key>, n: Node): set<Key> {
    set k | k in keys && Below(n, k)
  }

  /** Following the links of a level from a node; defined for well-linked states. */
  ghost function Walk(s: State, l: nat, n: Node): (r: seq<Key>)
    requires Levels(s) && l < MAX_HEIGHT && OnLevel(s, l, n)
    ensures forall k :: k in r <==> k in After(s.linked[l], n)
    ensures forall i, j :: 0 <= i < j < |r| ==> r[i] < r[j]
    decreases After(s.linked[l], n)
  {
    assert IsNext(s.linked[l], n, s.next[l][n]);
    var next := s.next[l][n];
    if next.None? then []
    else
      var rest := After(s.linked[l], Inner(next.value));
      assert After(s.linked[l], n) == {next.value} + rest && next.value !in rest;
      var tail := Walk(s, l, Inner(next.value));
      assert forall i :: 0 <= i < |tail| ==> tail[i] in rest;
      [next.value] + tail
  }

  ghost predicate Sublist(a: seq<Key>, b: seq<Key>) {
    forall k :: k in a ==> k in b
  }

  /** In every state of every run, each level's list is sorted and part of the
      list below it. */
  lemma LevelsAreSortedSublists(states: seq<State>, actions: seq<Action>, i: nat, l: nat)
    requires IsRun(states, actions) && i < |states| && l < MAX_HEIGHT - 1
    ensures Levels(states[i])
    ensures var upper, lower := Walk(states[i], l + 1, Head), Walk(states[i], l, Head);
      && Sublist(upper, lower)
      && (forall p, q :: 0 <= p < q < |upper| ==> upper[p] < upper[q])
  {
    RunKeepsInv(states, actions, i);
    assert states[i].linked[l + 1] <= states[i].linked[l];
  }

  /** Published keys stay published. */
  lemma {:induction false} KeysStay(states: seq<State>, actions: seq<Action>, i: nat, j: nat)
    requires IsRun(states, actions) && i <= j < |states|
    ensures |states[i].linked| == |states[j].linked| == MAX_HEIGHT
    ensures states[i].linked[0] <= states[j].linked[0]
  {
    RunKeepsInv(states, actions, j);
    if i < j {
      KeysStay(states, actions, i, j - 1);
      assert Step(states[j - 1], actions[j - 1], states[j]);
    }
  }

  /** So a search misses no key that was present before it started. */
  lemma SearchSeesOlderKeys(states: seq<State>, actions: seq<Action>, start: nat, i: nat, id: ReaderId, k: Key)
    requires IsRun(states, actions) && start <= i < |actions|
    requires actions[i] == ReadStep(id) && states[i + 1].readers[id].Done?
    requires states[i + 1].readers[id].search.GreaterOrEqual?
    requires states[start].linked != [] && k in states[start].linked[0]
    requires k >= states[i + 1].readers[id].search.target
    ensures states[i + 1].readers[id].next.Some? && states[i + 1].readers[id].next.value <= k
  {
    KeysStay(states, actions, start, i);
    SearchIsLinearizable(states, actions, i, id);
  }
}
