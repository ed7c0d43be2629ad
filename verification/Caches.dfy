/** The LRU cache: reference counts, the two lists, the charge, and a deleter
    that runs once for every entry. */
module Caches {
  import opened InternalKeys
  import opened HandleTables

  type Id = nat

  /** A cache entry; its address is its `Id`. */
  datatype Handle = Handle(name: Name, value: Bytes, charge: nat, inCache: bool, refs: nat)

  /** `deleted` is the sequence of deleter calls; `clients` counts the handles
      that callers hold and have not released. */
  datatype State = State(
    capacity: nat,
    usage: int,
    lru: seq<Id>,
    inUse: seq<Id>,
    table: map<Name, Id>,
    handles: map<Id, Handle>,
    next: Id,
    deleted: seq<Id>,
    clients: map<Id, nat>)

  // ---------------------------------------------------------------------
  // The lists
  // ---------------------------------------------------------------------

  predicate Distinct(ids: seq<Id>) {
    forall i, j :: 0 <= i < j < |ids| ==> ids[i] != ids[j]
  }

  /** `LRU_Remove` from whichever list holds the entry. */
  function Unlink(ids: seq<Id>, id: Id): seq<Id> {
    if ids == [] then [] else (if ids[0] == id then [] else [ids[0]]) + Unlink(ids[1..], id)
  }

  lemma {:induction false} UnlinkMembers(ids: seq<Id>, id: Id)
    ensures forall x :: x in Unlink(ids, id) <==> x in ids && x != id
    ensures Distinct(ids) ==> Distinct(Unlink(ids, id))
  {
    if ids != [] {
      UnlinkMembers(ids[1..], id);
      assert ids == [ids[0]] + ids[1..];
      if Distinct(ids) {
        assert forall i :: 0 <= i < |ids| - 1 ==> ids[1..][i] == ids[i + 1];
        assert ids[0] !in ids[1..];
      }
    }
  }

  function Charge(handles: map<Id, Handle>, id: Id): nat {
    if id in handles then handles[id].charge else 0
  }

  function Sum(handles: map<Id, Handle>, ids: seq<Id>): nat {
    if ids == [] then 0 else Charge(handles, ids[0]) + Sum(handles, ids[1..])
  }

  lemma {:induction false} UnlinkOther(ids: seq<Id>, id: Id)
    requires id !in ids
    ensures Unlink(ids, id) == ids
  {
    if ids != [] {
      UnlinkOther(ids[1..], id);
    }
  }

  lemma {:induction false} SumOfUnlink(handles: map<Id, Handle>, ids: seq<Id>, id: Id)
    requires Distinct(ids)
    ensures Sum(handles, Unlink(ids, id)) == Sum(handles, ids) - if id in ids then Charge(handles, id) else 0
  {
    if ids != [] {
      assert forall i :: 0 <= i < |ids| - 1 ==> ids[1..][i] == ids[i + 1];
      if ids[0] == id {
        UnlinkOther(ids[1..], id);
        assert Unlink(ids, id) == ids[1..];
      } else {
        SumOfUnlink(handles, ids[1..], id);
        assert id in ids <==> id in ids[1..];
      }
    }
  }

  lemma {:induction false} SumOfAppend(handles: map<Id, Handle>, ids: seq<Id>, id: Id)
    ensures Sum(handles, ids + [id]) == Sum(handles, ids) + Charge(handles, id)
  {
    if ids != [] {
      assert (ids + [id])[1..] == ids[1..] + [id];
      SumOfAppend(handles, ids[1..], id);
    }
  }

  lemma {:induction false} SumAgrees(handles: map<Id, Handle>, handles': map<Id, Handle>, ids: seq<Id>)
    requires forall id :: id in ids ==> Charge(handles', id) == Charge(handles, id)
    ensures Sum(handles', ids) == Sum(handles, ids)
  {
    if ids != [] {
      SumAgrees(handles, handles', ids[1..]);
    }
  }

  // ---------------------------------------------------------------------
  // The invariant
  // ---------------------------------------------------------------------

  predicate Cached(s: State, id: Id) {
    id in s.handles && s.handles[id].inCache
  }

  /** Cached entries without clients are on `lru`, the others on `inUse`. */
  ghost predicate ListsOk(s: State) {
    && Distinct(s.lru) && Distinct(s.inUse)
    && (forall id :: id in s.lru <==> Cached(s, id) && s.handles[id].refs == 1)
    && (forall id :: id in s.inUse <==> Cached(s, id) && s.handles[id].refs >= 2)
  }

  ghost predicate UsageOk(s: State) {
    s.usage == Sum(s.handles, s.lru) + Sum(s.handles, s.inUse)
  }

  ghost predicate TableOk(s: State) {
    && (forall n :: n in s.table ==> Cached(s, s.table[n]) && s.handles[s.table[n]].name == n)
    && (forall id :: Cached(s, id) ==> s.handles[id].name in s.table && s.table[s.handles[id].name] == id)
  }

  /** One reference for each client and one for the cache. */
  ghost predicate RefsOk(s: State) {
    && s.clients.Keys == s.handles.Keys
    && forall id :: id in s.handles ==>
         s.handles[id].refs == s.clients[id] + (if s.handles[id].inCache then 1 else 0) && s.handles[id].refs >= 1
  }

  /** Every entry ever made is either alive or was deleted once. */
  ghost predicate DeletedOk(s: State) {
    && Distinct(s.deleted)
    && (forall id: Id :: id < s.next <==> id in s.handles || id in s.deleted)
    && (forall id :: id in s.deleted ==> id !in s.handles)
  }

  ghost predicate Inv(s: State) {
    ListsOk(s) && UsageOk(s) && TableOk(s) && RefsOk(s) && DeletedOk(s)
  }

  // ---------------------------------------------------------------------
  // The operations
  // ---------------------------------------------------------------------

  function Empty(capacity: nat): State {
    State(capacity, 0, [], [], map[], map[], 0, [], map[])
  }

  function WithRefs(s: State, id: Id, refs: nat): State
    requires id in s.handles
  {
    s.(handles := s.handles[id := s.handles[id].(refs := refs)])
  }

  function AfterRef(s: State, id: Id): State
    requires id in s.handles
  {
    var h := s.handles[id];
    var s' := if h.refs == 1 && h.inCache then s.(lru := Unlink(s.lru, id), inUse := Unlink(s.inUse, id) + [id]) else s;
    WithRefs(s', id, h.refs + 1)
  }

  function AfterUnref(s: State, id: Id): State
    requires id in s.handles && s.handles[id].refs > 0
  {
    var h := s.handles[id];
    if h.refs == 1 then s.(handles := s.handles - {id}, deleted := s.deleted + [id], clients := s.clients - {id})
    else
      var s' := WithRefs(s, id, h.refs - 1);
      if h.inCache && h.refs == 2 then s'.(lru := Unlink(s.lru, id) + [id], inUse := Unlink(s.inUse, id)) else s'
  }

  /** `FinishErase`: off the lists and out of the count; the cache's reference goes. */
  function AfterFinishErase(s: State, id: Id): State
    requires id in s.handles && s.handles[id].refs > 0
  {
    var h := s.handles[id];
    AfterUnref(s.(lru := Unlink(s.lru, id), inUse := Unlink(s.inUse, id), usage := s.usage - h.charge,
             handles := s.handles[id := h.(inCache := false)]), id)
  }

  function AfterLookup(s: State, name: Name): State
    requires name in s.table ==> s.table[name] in s.handles && s.table[name] in s.clients
  {
    if name in s.table then
      var id := s.table[name];
      AfterRef(s, id).(clients := s.clients[id := s.clients[id] + 1])
    else s
  }

  /** A client gives a handle back. */
  predicate CanRelease(s: State, id: Id) {
    id in s.handles && s.handles[id].refs > 0 && id in s.clients && s.clients[id] > 0
  }

  function AfterRelease(s: State, id: Id): State
    requires CanRelease(s, id)
  {
    AfterUnref(s.(clients := s.clients[id := s.clients[id] - 1]), id)
  }

  function AfterErase(s: State, name: Name): State
    requires name in s.table ==> s.table[name] in s.handles && s.handles[s.table[name]].refs > 0
  {
    if name in s.table then AfterFinishErase(s.(table := s.table - {name}), s.table[name]) else s
  }

  /** Before an entry of this name comes into the cache, any other goes. */
  function Without(s: State, name: Name): State
    requires name in s.table ==> s.table[name] in s.handles && s.handles[s.table[name]].refs > 0
  {
    if s.capacity > 0 then AfterErase(s, name) else s
  }

  /** A new entry with one client, in the cache unless caching is off. */
  function AddEntry(s: State, name: Name, value: Bytes, charge: nat): State {
    var s' := s.(next := s.next + 1, clients := s.clients[s.next := 1]);
    if s.capacity > 0 then
      s'.(handles := s.handles[s.next := Handle(name, value, charge, true, 2)], table := s.table[name := s.next],
          inUse := s.inUse + [s.next], usage := s.usage + charge)
    else
      s'.(handles := s.handles[s.next := Handle(name, value, charge, false, 1)])
  }

  // ---------------------------------------------------------------------
  // Each operation keeps the invariant
  // ---------------------------------------------------------------------

  ghost predicate SameButFor(h: map<Id, Handle>, h': map<Id, Handle>, id: Id) {
    forall x :: x != id ==> (x in h <==> x in h') && (x in h ==> h'[x] == h[x])
  }

  /** The three things that happen to a list when entry `id` changes. */
  predicate Relinks(before: seq<Id>, after: seq<Id>, id: Id) {
    after == before || after == Unlink(before, id) || after == Unlink(before, id) + [id]
  }

  lemma Relinked(h: map<Id, Handle>, h': map<Id, Handle>, before: seq<Id>, after: seq<Id>, id: Id)
    requires Distinct(before) && Relinks(before, after, id) && SameButFor(h, h', id)
    ensures Distinct(after) && forall x :: x != id ==> (x in after <==> x in before)
    ensures Sum(h', after) - (if id in after then Charge(h', id) else 0)
         == Sum(h, before) - (if id in before then Charge(h, id) else 0)
  {
    var rest := Unlink(before, id);
    UnlinkMembers(before, id);
    SumOfUnlink(h, before, id);
    SumAgrees(h, h', rest);
    if after == rest + [id] {
      SumOfAppend(h', rest, id);
    } else if after == before {
      SumOfUnlink(h', before, id);
    }
  }

  /** Entry `id` changes, the lists follow, and the charge is counted again. */
  lemma EntryChanges(s: State, s': State, id: Id)
    requires ListsOk(s) && UsageOk(s) && SameButFor(s.handles, s'.handles, id)
    requires Relinks(s.lru, s'.lru, id) && Relinks(s.inUse, s'.inUse, id)
    requires id in s'.lru <==> Cached(s', id) && s'.handles[id].refs == 1
    requires id in s'.inUse <==> Cached(s', id) && s'.handles[id].refs >= 2
    requires Cached(s, id) ==> s.handles[id].refs >= 1
    requires s'.usage == s.usage - (if Cached(s, id) then s.handles[id].charge else 0)
                         + (if Cached(s', id) && s'.handles[id].refs >= 1 then s'.handles[id].charge else 0)
    ensures ListsOk(s') && UsageOk(s')
  {
    Relinked(s.handles, s'.handles, s.lru, s'.lru, id);
    Relinked(s.handles, s'.handles, s.inUse, s'.inUse, id);
    assert forall x :: x != id ==> (Cached(s', x) <==> Cached(s, x));
  }

  lemma EmptyHasInv(capacity: nat)
    ensures Inv(Empty(capacity))
  {
  }

  /** The same entries are cached, under the same names. */
  lemma TableFollows(s: State, s': State)
    requires TableOk(s) && s'.table == s.table
    requires forall x :: Cached(s', x) <==> Cached(s, x)
    requires forall x :: Cached(s, x) && Cached(s', x) ==> s'.handles[x].name == s.handles[x].name
    ensures TableOk(s')
  {
  }

  /** The references of the entry that changes are counted again. */
  lemma RefsFollow(s: State, s': State, id: Id)
    requires RefsOk(s) && SameButFor(s.handles, s'.handles, id)
    requires id in s'.handles && s'.clients.Keys == s.clients.Keys + {id}
    requires forall x :: x != id && x in s.clients ==> s'.clients[x] == s.clients[x]
    requires s'.handles[id].refs == s'.clients[id] + (if s'.handles[id].inCache then 1 else 0) &&
      s'.handles[id].refs >= 1
    ensures RefsOk(s')
  {
    assert s'.handles.Keys == s.handles.Keys + {id};
  }

  lemma LookupKeepsLists(s: State, name: Name)
    requires Inv(s) && name in s.table
    ensures ListsOk(AfterLookup(s, name)) && UsageOk(AfterLookup(s, name))
  {
    UnlinkMembers(s.lru, s.table[name]);
    EntryChanges(s, AfterLookup(s, name), s.table[name]);
  }

  lemma LookupKeepsTable(s: State, name: Name)
    requires Inv(s) && name in s.table
    ensures TableOk(AfterLookup(s, name)) && DeletedOk(AfterLookup(s, name))
  {
    TableFollows(s, AfterLookup(s, name));
  }

  lemma LookupKeepsRefs(s: State, name: Name)
    requires Inv(s) && name in s.table
    ensures RefsOk(AfterLookup(s, name))
  {
    RefsFollow(s, AfterLookup(s, name), s.table[name]);
  }

  lemma LookupKeepsInv(s: State, name: Name)
    requires Inv(s)
    ensures Inv(AfterLookup(s, name))
  {
    if name in s.table {
      LookupKeepsLists(s, name);
      LookupKeepsTable(s, name);
      LookupKeepsRefs(s, name);
    }
  }

  lemma Unlinked(s: State, id: Id)
    ensures forall x :: x in Unlink(s.lru, id) <==> x in s.lru && x != id
    ensures forall x :: x in Unlink(s.inUse, id) <==> x in s.inUse && x != id
  {
    UnlinkMembers(s.lru, id);
    UnlinkMembers(s.inUse, id);
  }

  /** The last reference of an entry that was erased before: it is deleted. */
  lemma LastReleaseKeepsInv(s: State, id: Id)
    requires Inv(s) && CanRelease(s, id) && s.handles[id].refs == 1
    ensures Inv(AfterRelease(s, id))
  {
    var s' := AfterRelease(s, id);
    EntryChanges(s, s', id);
    TableFollows(s, s');
    DeletedFollows(s, s', id);
  }

  lemma DeletedFollows(s: State, s': State, id: Id)
    requires DeletedOk(s) && id in s.handles && s'.deleted == s.deleted + [id] && s'.next == s.next
    requires s'.handles.Keys == s.handles.Keys - {id}
    ensures DeletedOk(s')
  {
    assert forall x :: x in s'.deleted <==> x in s.deleted || x == id;
  }

  /** The last client of a cached entry leaves: the entry becomes the newest on `lru`. */
  lemma IdleReleaseKeepsInv(s: State, id: Id)
    requires Inv(s) && CanRelease(s, id) && s.handles[id].refs == 2 && s.handles[id].inCache
    ensures Inv(AfterRelease(s, id))
  {
    var s' := AfterRelease(s, id);
    Unlinked(s, id);
    EntryChanges(s, s', id);
    TableFollows(s, s');
    RefsFollow(s, s', id);
  }

  lemma OtherReleaseKeepsInv(s: State, id: Id)
    requires Inv(s) && CanRelease(s, id) && s.handles[id].refs > 1
    requires s.handles[id].refs > 2 || !s.handles[id].inCache
    ensures Inv(AfterRelease(s, id))
  {
    var s' := AfterRelease(s, id);
    EntryChanges(s, s', id);
    TableFollows(s, s');
    RefsFollow(s, s', id);
  }

  lemma ReleaseKeepsInv(s: State, id: Id)
    requires Inv(s) && CanRelease(s, id)
    ensures Inv(AfterRelease(s, id))
  {
    if s.handles[id].refs == 1 {
      LastReleaseKeepsInv(s, id);
    } else if s.handles[id].refs == 2 && s.handles[id].inCache {
      IdleReleaseKeepsInv(s, id);
    } else {
      OtherReleaseKeepsInv(s, id);
    }
  }

  /** The state after `Erase` finds its entry. */
  function Erased(s: State, name: Name, id: Id): State
    requires id in s.handles && s.handles[id].refs > 0
  {
    var h := s.handles[id];
    var s' := s.(table := s.table - {name}, lru := Unlink(s.lru, id), inUse := Unlink(s.inUse, id),
                 usage := s.usage - h.charge);
    if h.refs == 1 then s'.(handles := s.handles - {id}, deleted := s.deleted + [id], clients := s.clients - {id})
    else s'.(handles := s.handles[id := h.(inCache := false, refs := h.refs - 1)])
  }

  lemma EraseIsErased(s: State, name: Name)
    requires Inv(s) && name in s.table
    ensures AfterErase(s, name) == Erased(s, name, s.table[name])
  {
    var id := s.table[name];
    var h := s.handles[id];
    if h.refs == 1 {
      assert s.handles[id := h.(inCache := false)] - {id} == s.handles - {id};
    }
  }

  lemma ErasedTableOk(s: State, name: Name, s': State)
    requires TableOk(s) && name in s.table && s'.table == s.table - {name}
    requires SameButFor(s.handles, s'.handles, s.table[name]) && !Cached(s', s.table[name])
    ensures TableOk(s')
  {
    var id := s.table[name];
    forall n | n in s'.table ensures Cached(s', s'.table[n]) && s'.handles[s'.table[n]].name == n {
      assert s.handles[s.table[n]].name == n && s.handles[id].name == name;
    }
    forall x | Cached(s', x) ensures s'.handles[x].name in s'.table && s'.table[s'.handles[x].name] == x {
      assert Cached(s, x) && s.handles[x].name in s.table;
    }
  }

  lemma ErasedRefsOk(s: State, name: Name, id: Id)
    requires RefsOk(s) && Cached(s, id) && s.handles[id].refs > 0
    ensures RefsOk(Erased(s, name, id))
  {
    var s' := Erased(s, name, id);
    assert s'.clients.Keys == s'.handles.Keys;
  }

  lemma ErasedKeepsInv(s: State, name: Name, id: Id)
    requires Inv(s) && name in s.table && id == s.table[name]
    ensures Inv(Erased(s, name, id))
  {
    var s' := Erased(s, name, id);
    Unlinked(s, id);
    EntryChanges(s, s', id);
    ErasedTableOk(s, name, s');
    ErasedRefsOk(s, name, id);
    if s.handles[id].refs == 1 {
      DeletedFollows(s, s', id);
    }
  }

  lemma EraseKeepsInv(s: State, name: Name)
    requires Inv(s)
    ensures Inv(AfterErase(s, name))
  {
    if name in s.table {
      EraseIsErased(s, name);
      ErasedKeepsInv(s, name, s.table[name]);
    }
  }

  lemma AddedTableOk(s: State, s': State, id: Id, name: Name)
    requires TableOk(s) && id !in s.handles && SameButFor(s.handles, s'.handles, id)
    requires id in s'.handles && s'.handles[id].name == name && (s'.handles[id].inCache ==> name !in s.table)
    requires s'.table == if s'.handles[id].inCache then s.table[name := id] else s.table
    ensures TableOk(s')
  {
    forall x | Cached(s', x) ensures s'.handles[x].name in s'.table && s'.table[s'.handles[x].name] == x {
      assert x != id ==> Cached(s, x);
    }
    forall n | n in s'.table ensures Cached(s', s'.table[n]) && s'.handles[s'.table[n]].name == n {
      assert n != name ==> Cached(s, s.table[n]);
    }
  }

  lemma AddedFollows(s: State, s': State, id: Id)
    requires DeletedOk(s) && id == s.next && s'.next == s.next + 1 && s'.deleted == s.deleted
    requires s'.handles.Keys == s.handles.Keys + {id}
    ensures id !in s.handles && id !in s.deleted && DeletedOk(s')
  {
  }

  lemma AddCachedKeepsLists(s: State, name: Name, value: Bytes, charge: nat)
    requires Inv(s) && s.capacity > 0 && name !in s.table
    ensures ListsOk(AddEntry(s, name, value, charge)) && UsageOk(AddEntry(s, name, value, charge))
  {
    AddedFollows(s, AddEntry(s, name, value, charge), s.next);
    UnlinkOther(s.inUse, s.next);
    EntryChanges(s, AddEntry(s, name, value, charge), s.next);
  }

  lemma AddCachedKeepsInv(s: State, name: Name, value: Bytes, charge: nat)
    requires Inv(s) && s.capacity > 0 && name !in s.table
    ensures Inv(AddEntry(s, name, value, charge))
  {
    AddCachedKeepsLists(s, name, value, charge);
    AddCachedKeepsTable(s, name, value, charge);
  }

  lemma AddCachedKeepsTable(s: State, name: Name, value: Bytes, charge: nat)
    requires Inv(s) && s.capacity > 0 && name !in s.table
    ensures var s' := AddEntry(s, name, value, charge); TableOk(s') && RefsOk(s') && DeletedOk(s')
  {
    var id, s' := s.next, AddEntry(s, name, value, charge);
    AddedFollows(s, s', id);
    AddedTableOk(s, s', id, name);
    RefsFollow(s, s', id);
  }

  lemma AddUncachedKeepsInv(s: State, name: Name, value: Bytes, charge: nat)
    requires Inv(s) && s.capacity == 0
    ensures Inv(AddEntry(s, name, value, charge))
  {
    var id, s' := s.next, AddEntry(s, name, value, charge);
    AddedFollows(s, s', id);
    EntryChanges(s, s', id);
    AddedTableOk(s, s', id, name);
    RefsFollow(s, s', id);
  }

  // ---------------------------------------------------------------------
  // Insertion and eviction
  // ---------------------------------------------------------------------

  lemma ReplaceLast(s: State, name: Name, id: Id, h: Handle, added: Handle)
    requires name in s.table && s.table[name] == id && id in s.handles && s.handles[id] == h && h.refs == 1
    requires s.capacity > 0 && id != s.next && added == Handle(name, added.value, added.charge, true, 2)
    ensures AfterFinishErase(AddEntry(s, name, added.value, added.charge), id)
         == AddEntry(Erased(s, name, id), name, added.value, added.charge)
  {
    UnlinkAppend(s.inUse, s.next, id);
    AddThenDrop(s.handles, s.next, added, id, h.(inCache := false));
    assert s.table[name := s.next] == (s.table - {name})[name := s.next];
    assert s.clients[s.next := 1] - {id} == (s.clients - {id})[s.next := 1];
  }

  lemma ReplaceOther(s: State, name: Name, id: Id, h: Handle, added: Handle)
    requires name in s.table && s.table[name] == id && id in s.handles && s.handles[id] == h && h.refs > 1
    requires s.capacity > 0 && id != s.next && added == Handle(name, added.value, added.charge, true, 2)
    ensures AfterFinishErase(AddEntry(s, name, added.value, added.charge), id)
         == AddEntry(Erased(s, name, id), name, added.value, added.charge)
  {
    UnlinkAppend(s.inUse, s.next, id);
    assert s.table[name := s.next] == (s.table - {name})[name := s.next];
    var released := h.(inCache := false, refs := h.refs - 1);
    assert s.handles[s.next := added][id := released] == s.handles[id := released][s.next := added];
  }

  /** The replaced entry leaves after the new one came; the order makes no difference. */
  lemma ReplaceIsEraseAndAdd(s: State, name: Name, value: Bytes, charge: nat)
    requires Inv(s) && s.capacity > 0 && name in s.table
    ensures AfterFinishErase(AddEntry(s, name, value, charge), s.table[name])
         == AddEntry(AfterErase(s, name), name, value, charge)
  {
    var id, added := s.table[name], Handle(name, value, charge, true, 2);
    EraseIsErased(s, name);
    if s.handles[id].refs == 1 {
      ReplaceLast(s, name, id, s.handles[id], added);
    } else {
      ReplaceOther(s, name, id, s.handles[id], added);
    }
  }

  lemma AddThenDrop(handles: map<Id, Handle>, new_: Id, added: Handle, id: Id, changed: Handle)
    requires id != new_
    ensures handles[new_ := added][id := changed] - {id} == (handles - {id})[new_ := added]
  {
  }

  lemma {:induction false} UnlinkAppend(ids: seq<Id>, last: Id, id: Id)
    requires id != last
    ensures Unlink(ids + [last], id) == Unlink(ids, id) + [last]
  {
    if ids != [] {
      assert (ids + [last])[1..] == ids[1..] + [last];
      UnlinkAppend(ids[1..], last, id);
    }
  }

  /** An entry of this name can be replaced, and that erases it. */
  predicate CanReplace(s: State, name: Name, value: Bytes, charge: nat) {
    name in s.table ==>
      && s.table[name] in s.handles && s.handles[s.table[name]].refs > 0
      && s.table[name] in AddEntry(s, name, value, charge).handles
      && AddEntry(s, name, value, charge).handles[s.table[name]].refs > 0
      && AfterFinishErase(AddEntry(s, name, value, charge), s.table[name])
         == AddEntry(AfterErase(s, name), name, value, charge)
  }

  lemma ReplaceIsPossible(s: State, name: Name, value: Bytes, charge: nat)
    requires Inv(s) && s.capacity > 0
    ensures CanReplace(s, name, value, charge)
    ensures name !in AfterErase(s, name).table && AfterErase(s, name).capacity == s.capacity
  {
    if name in s.table {
      ReplaceIsEraseAndAdd(s, name, value, charge);
    }
  }

  /** Erases the entry released longest ago. */
  function EraseOldest(s: State): State
    requires Inv(s) && s.lru != []
  {
    assert s.lru[0] in s.lru;
    AfterErase(s, s.handles[s.lru[0]].name)
  }

  lemma OldestLeaves(s: State)
    requires Inv(s) && s.lru != []
    ensures var r := EraseOldest(s);
      && Inv(r) && r.lru == s.lru[1..] && r.inUse == s.inUse && r.capacity == s.capacity && r.next == s.next
      && SameHandles(s, r) && r.usage == s.usage - Charge(s.handles, s.lru[0])
      && r.deleted == s.deleted + [s.lru[0]]
  {
    var id := s.lru[0];
    assert id in s.lru;
    var name := s.handles[id].name;
    EraseIsErased(s, name);
    EraseKeepsInv(s, name);
    UnlinkOther(s.inUse, id);
    assert id !in s.lru[1..];
    UnlinkOther(s.lru[1..], id);
  }

  lemma OldestIsCached(s: State)
    requires Inv(s) && s.lru != []
    ensures s.lru[0] in s.handles
  {
    assert s.lru[0] in s.lru;
  }

  /** Entries that are still there are as they were. */
  predicate SameHandles(s: State, r: State) {
    && (forall id :: id in r.handles ==> id in s.handles && r.handles[id] == s.handles[id])
    && (forall id :: id in r.clients ==> id in s.clients && r.clients[id] == s.clients[id])
  }

  /** `evicted` entries left the front of `lru`, and nothing else changed hands. */
  predicate Evicted(s: State, r: State, evicted: nat) {
    && evicted <= |s.lru|
    && r.lru == s.lru[evicted..] && r.deleted == s.deleted + s.lru[..evicted]
    && r.inUse == s.inUse && r.capacity == s.capacity && r.next == s.next
    && SameHandles(s, r)
  }

  /** The border between what was deleted and what is on `lru` has moved. */
  predicate BorderMoved(s: State, r: State, evicted: nat) {
    && s.deleted + s.lru == r.deleted + r.lru && |r.deleted| == |s.deleted| + evicted
    && r.inUse == s.inUse && r.capacity == s.capacity && r.next == s.next
    && SameHandles(s, r)
  }

  lemma MovedIsEvicted(s: State, r: State, evicted: nat)
    requires BorderMoved(s, r, evicted)
    ensures Evicted(s, r, evicted)
  {
    var all, n := s.deleted + s.lru, |s.deleted|;
    assert |all| == |r.deleted| + |r.lru|;
    assert s.lru == all[n..] && r.deleted == all[..n + evicted] && r.lru == all[n + evicted..];
  }

  lemma MoveOneOver(deleted: seq<Id>, lru: seq<Id>)
    requires lru != []
    ensures (deleted + [lru[0]]) + lru[1..] == deleted + lru
  {
  }

  /** So many of the entries of `s` were evicted, and the last of them not without need. */
  predicate Evicting(s: State, r: State, evicted: nat, pruning: bool) {
    && BorderMoved(s, r, evicted) && evicted <= |s.lru|
    && if evicted == 0 then r.usage == s.usage
       else pruning || r.usage + Charge(s.handles, s.lru[evicted - 1]) > s.capacity
  }

  lemma BorderMoves(s: State, m: State, evicted: nat)
    requires BorderMoved(s, m, evicted) && Inv(m) && m.lru != []
    ensures Inv(EraseOldest(m)) && BorderMoved(s, EraseOldest(m), evicted + 1)
  {
    OldestLeaves(m);
    MoveOneOver(m.deleted, m.lru);
  }

  lemma OldestWas(s: State, m: State, evicted: nat)
    requires BorderMoved(s, m, evicted) && Inv(m) && m.lru != []
    ensures evicted < |s.lru| && s.lru[evicted] == m.lru[0]
    ensures Charge(m.handles, m.lru[0]) == Charge(s.handles, m.lru[0])
  {
    MovedIsEvicted(s, m, evicted);
    assert m.lru[0] in m.lru;
  }

  lemma EvictOneMore(s: State, m: State, evicted: nat, pruning: bool)
    requires Evicting(s, m, evicted, pruning) && Inv(m) && m.lru != [] && (pruning || m.usage > m.capacity)
    ensures Inv(EraseOldest(m)) && Evicting(s, EraseOldest(m), evicted + 1, pruning)
    ensures |EraseOldest(m).lru| < |m.lru|
  {
    OldestWas(s, m, evicted);
    BorderMoves(s, m, evicted);
    OldestLeaves(m);
  }

  ghost predicate SomeEvicted(s: State, r: State, pruning: bool) {
    exists evicted :: Inv(r) && Evicting(s, r, evicted, pruning)
  }

  lemma NoneEvicted(s: State, pruning: bool)
    requires Inv(s)
    ensures SomeEvicted(s, s, pruning)
  {
    assert Evicting(s, s, 0, pruning);
  }

  lemma EvictAnother(s: State, m: State, pruning: bool)
    requires SomeEvicted(s, m, pruning) && m.lru != [] && (pruning || m.usage > m.capacity)
    ensures Inv(m) && SomeEvicted(s, EraseOldest(m), pruning) && |EraseOldest(m).lru| < |m.lru|
  {
    var evicted :| Inv(m) && Evicting(s, m, evicted, pruning);
    EvictOneMore(s, m, evicted, pruning);
  }

  lemma HowManyEvicted(s: State, r: State, pruning: bool) returns (evicted: nat)
    requires SomeEvicted(s, r, pruning)
    ensures Inv(r) && Evicting(s, r, evicted, pruning) && Evicted(s, r, evicted)
  {
    evicted :| Inv(r) && Evicting(s, r, evicted, pruning);
    MovedIsEvicted(s, r, evicted);
  }

  // ---------------------------------------------------------------------
  // The order of release
  // ---------------------------------------------------------------------

  /** What callers ask of the cache. */
  datatype Call =
    | Insert(name: Name, value: Bytes, charge: nat)
    | Lookup(name: Name)
    | Release(id: Id)
    | Erase(name: Name)
    | Prune

  /** When an entry was last given back, counted in calls; -1 if never. */
  function LastRelease(calls: seq<Call>, id: Id): (r: int)
    ensures -1 <= r < |calls|
  {
    if calls == [] then -1
    else if calls[|calls| - 1] == Release(id) then |calls| - 1
    else LastRelease(calls[..|calls| - 1], id)
  }

  lemma {:induction false} LastReleaseIsLast(calls: seq<Call>, id: Id, r: int)
    requires -1 <= r < |calls|
    ensures r == LastRelease(calls, id) <==>
      (r >= 0 ==> calls[r] == Release(id)) && forall k :: r < k < |calls| ==> calls[k] != Release(id)
  {
    if calls != [] {
      var n := |calls| - 1;
      if calls[n] != Release(id) && r < n {
        LastReleaseIsLast(calls[..n], id, r);
      }
    }
  }

  /** From the oldest on, each entry was last released before the next. */
  ghost predicate InReleaseOrder(lru: seq<Id>, calls: seq<Call>) {
    && (forall i :: 0 <= i < |lru| ==> LastRelease(calls, lru[i]) >= 0)
    && (forall i, j :: 0 <= i < j < |lru| ==> LastRelease(calls, lru[i]) < LastRelease(calls, lru[j]))
  }

  lemma OlderInFront(id: Id, rest: seq<Id>, calls: seq<Call>)
    requires InReleaseOrder(rest, calls) && LastRelease(calls, id) >= 0
    requires forall i :: 0 <= i < |rest| ==> LastRelease(calls, id) < LastRelease(calls, rest[i])
    ensures InReleaseOrder([id] + rest, calls)
  {
  }

  lemma {:induction false} UnlinkKeepsOrder(lru: seq<Id>, id: Id, calls: seq<Call>)
    requires InReleaseOrder(lru, calls)
    ensures InReleaseOrder(Unlink(lru, id), calls)
  {
    if lru != [] {
      var rest := lru[1..];
      assert forall i :: 0 <= i < |rest| ==> rest[i] == lru[i + 1];
      UnlinkKeepsOrder(rest, id, calls);
      UnlinkMembers(rest, id);
      var left := Unlink(rest, id);
      forall i | 0 <= i < |left| ensures LastRelease(calls, lru[0]) < LastRelease(calls, left[i]) {
        assert left[i] in rest;
      }
      OlderInFront(lru[0], left, calls);
    }
  }

  /** Another call: only a release makes a difference, to the entry released. */
  lemma OneMoreCall(calls: seq<Call>, c: Call, id: Id)
    ensures LastRelease(calls + [c], id) == if c == Release(id) then |calls| else LastRelease(calls, id)
  {
    assert (calls + [c])[..|calls|] == calls;
  }

  lemma OtherCallKeepsOrder(lru: seq<Id>, calls: seq<Call>, c: Call)
    requires InReleaseOrder(lru, calls) && forall i :: 0 <= i < |lru| ==> c != Release(lru[i])
    ensures InReleaseOrder(lru, calls + [c])
  {
    forall i | 0 <= i < |lru| ensures LastRelease(calls + [c], lru[i]) == LastRelease(calls, lru[i]) {
      OneMoreCall(calls, c, lru[i]);
    }
  }

  lemma AppendReleased(lru: seq<Id>, calls: seq<Call>, id: Id)
    requires InReleaseOrder(lru, calls) && id !in lru
    ensures InReleaseOrder(lru + [id], calls + [Release(id)])
  {
    OtherCallKeepsOrder(lru, calls, Release(id));
    OneMoreCall(calls, Release(id), id);
    forall i | 0 <= i < |lru| ensures LastRelease(calls + [Release(id)], lru[i]) < |calls| {
      OneMoreCall(calls, Release(id), lru[i]);
    }
  }

  lemma ReleaseKeepsOrder(s: State, id: Id, calls: seq<Call>)
    requires Inv(s) && CanRelease(s, id) && InReleaseOrder(s.lru, calls)
    ensures InReleaseOrder(AfterRelease(s, id).lru, calls + [Release(id)])
  {
    if s.handles[id].refs == 2 && s.handles[id].inCache {
      UnlinkKeepsOrder(s.lru, id, calls);
      UnlinkMembers(s.lru, id);
      AppendReleased(Unlink(s.lru, id), calls, id);
    } else {
      assert id !in s.lru;
      OtherCallKeepsOrder(s.lru, calls, Release(id));
    }
  }

  lemma LookupKeepsOrder(s: State, name: Name, calls: seq<Call>)
    requires Inv(s) && InReleaseOrder(s.lru, calls)
    ensures InReleaseOrder(AfterLookup(s, name).lru, calls + [Lookup(name)])
  {
    if name in s.table {
      UnlinkKeepsOrder(s.lru, s.table[name], calls);
    }
    OtherCallKeepsOrder(AfterLookup(s, name).lru, calls, Lookup(name));
  }

  lemma EraseKeepsOrder(s: State, name: Name, calls: seq<Call>, c: Call)
    requires Inv(s) && InReleaseOrder(s.lru, calls) && !c.Release?
    ensures InReleaseOrder(AfterErase(s, name).lru, calls + [c])
  {
    if name in s.table {
      EraseIsErased(s, name);
      UnlinkKeepsOrder(s.lru, s.table[name], calls);
    }
    OtherCallKeepsOrder(AfterErase(s, name).lru, calls, c);
  }

  /** What is evicted was released before everything that stays. */
  lemma EvictKeepsOrder(s: State, r: State, evicted: nat, calls: seq<Call>)
    requires Evicted(s, r, evicted) && InReleaseOrder(s.lru, calls)
    ensures InReleaseOrder(r.lru, calls) && EvictedFirst(s.lru, r.lru, evicted, calls)
  {
  }

  predicate EvictedFirst(before: seq<Id>, after: seq<Id>, evicted: nat, calls: seq<Call>) {
    && evicted <= |before|
    && forall i, j :: 0 <= i < evicted && 0 <= j < |after| ==>
         LastRelease(calls, before[i]) < LastRelease(calls, after[j])
  }

  /** The new entry is in, and the one of its name out, before anything is evicted. */
  function Inserted(s: State, name: Name, value: Bytes, charge: nat): State
    requires Inv(s)
  {
    TableIds(s, name);
    AddEntry(Without(s, name), name, value, charge)
  }

  lemma InsertKeepsOrder(s: State, name: Name, value: Bytes, charge: nat, calls: seq<Call>)
    requires Inv(s) && InReleaseOrder(s.lru, calls)
    ensures InReleaseOrder(Inserted(s, name, value, charge).lru, calls + [Insert(name, value, charge)])
  {
    if s.capacity > 0 {
      EraseKeepsOrder(s, name, calls, Insert(name, value, charge));
    } else {
      OtherCallKeepsOrder(s.lru, calls, Insert(name, value, charge));
    }
  }

  /** One call takes `s` to `s'`. */
  ghost predicate CallStep(s: State, c: Call, s': State) {
    && Inv(s) && Inv(s')
    && match c
       case Insert(name, value, charge) => exists n :: Evicted(Inserted(s, name, value, charge), s', n)
       case Lookup(name) => LookedUp(s, name, s')
       case Release(id) => CanRelease(s, id) && s' == AfterRelease(s, id)
       case Erase(name) => ErasedBy(s, name, s')
       case Prune => exists n :: Evicted(s, s', n)
  }

  ghost predicate LookedUp(s: State, name: Name, s': State)
    requires Inv(s)
  {
    TableIds(s, name);
    s' == AfterLookup(s, name)
  }

  ghost predicate ErasedBy(s: State, name: Name, s': State)
    requires Inv(s)
  {
    TableIds(s, name);
    s' == AfterErase(s, name)
  }

  lemma CallKeepsOrder(s: State, c: Call, s': State, calls: seq<Call>)
    requires CallStep(s, c, s') && InReleaseOrder(s.lru, calls)
    ensures InReleaseOrder(s'.lru, calls + [c])
  {
    match c
    case Insert(name, value, charge) =>
      InsertKeepsOrder(s, name, value, charge, calls);
      var n :| Evicted(Inserted(s, name, value, charge), s', n);
      EvictKeepsOrder(Inserted(s, name, value, charge), s', n, calls + [c]);
    case Lookup(name) => LookupKeepsOrder(s, name, calls);
    case Release(id) => ReleaseKeepsOrder(s, id, calls);
    case Erase(name) => EraseKeepsOrder(s, name, calls, c);
    case Prune =>
      OtherCallKeepsOrder(s.lru, calls, c);
      var n :| Evicted(s, s', n);
      EvictKeepsOrder(s, s', n, calls + [c]);
  }

  ghost predicate IsRun(capacity: nat, states: seq<State>, calls: seq<Call>) {
    && |states| == |calls| + 1 && states[0] == Empty(capacity)
    && forall i :: 0 <= i < |calls| ==> CallAt(states, calls, i)
  }

  ghost predicate CallAt(states: seq<State>, calls: seq<Call>, i: nat)
    requires i < |calls| && i + 1 < |states|
  {
    CallStep(states[i], calls[i], states[i + 1])
  }

  lemma NextInOrder(states: seq<State>, calls: seq<Call>, n: nat)
    requires n < |calls| && n + 1 < |states| && CallAt(states, calls, n) && InReleaseOrder(states[n].lru, calls[..n])
    ensures InReleaseOrder(states[n + 1].lru, calls[..n + 1])
  {
    CallKeepsOrder(states[n], calls[n], states[n + 1], calls[..n]);
    OneCallMore(calls, n);
  }

  lemma OneCallMore(calls: seq<Call>, n: nat)
    requires n < |calls|
    ensures calls[..n + 1] == calls[..n] + [calls[n]]
  {
  }

  /** In every run the list of idle entries is in the order of their last release. */
  lemma {:induction false} ReleaseOrder(capacity: nat, states: seq<State>, calls: seq<Call>, n: nat)
    requires IsRun(capacity, states, calls) && n < |states|
    ensures InReleaseOrder(states[n].lru, calls[..n])
  {
    if n > 0 {
      ReleaseOrder(capacity, states, calls, n - 1);
      NextInOrder(states, calls, n - 1);
    }
  }

  // ---------------------------------------------------------------------
  // The cache
  // ---------------------------------------------------------------------

  lemma TableIds(s: State, name: Name)
    requires Inv(s)
    ensures name in s.table ==>
      s.table[name] in s.handles && s.table[name] in s.clients && s.handles[s.table[name]].refs > 0
  {
  }

  class LRUCache {
    const capacity: nat
    const table: HandleTable
    var usage: int
    var lru: seq<Id>
    var inUse: seq<Id>
    var handles: map<Id, Handle>
    var next: Id
    /** The deleter calls made so far. */
    var deleted: seq<Id>
    ghost var clients: map<Id, nat>
    /** The calls made so far. */
    ghost var calls: seq<Call>

    ghost function View(): State
      reads this, table
    {
      State(capacity, usage, lru, inUse, table.contents, handles, next, deleted, clients)
    }

    ghost predicate Consistent()
      reads this, table
    {
      table.Valid() && Inv(View())
    }

    ghost predicate Valid()
      reads this, table
    {
      Consistent() && InReleaseOrder(lru, calls)
    }

    constructor (capacity: nat)
      ensures Valid() && View() == Empty(capacity) && calls == [] && fresh(table)
    {
      this.capacity := capacity;
      table := new HandleTable();
      usage, lru, inUse, handles, next, deleted, clients, calls := 0, [], [], map[], 0, [], map[], [];
      new;
      EmptyHasInv(capacity);
    }

    method Ref(id: Id)
      requires id in handles
      modifies this`lru, this`inUse, this`handles
      ensures View() == AfterRef(old(View()), id)
    {
      var h := handles[id];
      if h.refs == 1 && h.inCache {
        lru := Unlink(lru, id);
        inUse := Unlink(inUse, id) + [id];
      }
      handles := handles[id := h.(refs := h.refs + 1)];
    }

    method Unref(id: Id)
      requires id in handles && handles[id].refs > 0
      modifies this`lru, this`inUse, this`handles, this`deleted, this`clients
      ensures View() == AfterUnref(old(View()), id)
    {
      var h := handles[id].(refs := handles[id].refs - 1);
      if h.refs == 0 {
        deleted := deleted + [id];
        handles := handles - {id};
        clients := clients - {id};
      } else {
        handles := handles[id := h];
        if h.inCache && h.refs == 1 {
          lru := Unlink(lru, id) + [id];
          inUse := Unlink(inUse, id);
        }
      }
    }

    method FinishErase(id: Id)
      requires id in handles && handles[id].refs > 0
      modifies this`lru, this`inUse, this`handles, this`deleted, this`clients, this`usage
      ensures View() == AfterFinishErase(old(View()), id)
    {
      lru, inUse := Unlink(lru, id), Unlink(inUse, id);
      usage := usage - handles[id].charge;
      handles := handles[id := handles[id].(inCache := false)];
      Unref(id);
    }

    /** One more client of an entry. */
    method AddClient(id: Id)
      requires id in handles && id in clients
      modifies this`lru, this`inUse, this`handles, this`clients
      ensures View() == AfterRef(old(View()), id).(clients := old(clients)[id := old(clients)[id] + 1])
    {
      Ref(id);
      clients := clients[id := clients[id] + 1];
    }

    /** One client less. */
    method DropClient(id: Id)
      requires CanRelease(View(), id)
      modifies this`lru, this`inUse, this`handles, this`deleted, this`clients
      ensures View() == AfterRelease(old(View()), id)
    {
      clients := clients[id := clients[id] - 1];
      Unref(id);
    }

    method FindAndRef(name: Name) returns (r: Option<Id>)
      requires table.Valid()
      requires name in table.contents ==> table.contents[name] in handles && table.contents[name] in clients
      modifies this`lru, this`inUse, this`handles, this`clients
      ensures View() == AfterLookup(old(View()), name)
      ensures r == if name in table.contents then Some(table.contents[name]) else None
    {
      r := table.Lookup(name);
      if r.Some? {
        AddClient(r.value);
      }
    }

    method Lookup(name: Name) returns (r: Option<Id>)
      requires Valid()
      modifies this`lru, this`inUse, this`handles, this`clients, this`calls
      ensures Valid() && calls == old(calls) + [Call.Lookup(name)]
      ensures View() == AfterLookup(old(View()), name)
      ensures r == if name in table.contents then Some(table.contents[name]) else None
    {
      LookupKeepsInv(View(), name);
      LookupKeepsOrder(View(), name, calls);
      TableIds(View(), name);
      r := FindAndRef(name);
      calls := calls + [Call.Lookup(name)];
    }

    /** The caller gives back a handle it holds. */
    method Release(id: Id)
      requires Valid() && CanRelease(View(), id)
      modifies this`lru, this`inUse, this`handles, this`deleted, this`clients, this`calls
      ensures Valid() && calls == old(calls) + [Call.Release(id)]
      ensures View() == AfterRelease(old(View()), id)
    {
      ReleaseKeepsInv(View(), id);
      ReleaseKeepsOrder(View(), id, calls);
      DropClient(id);
      calls := calls + [Call.Release(id)];
    }

    method Erase(name: Name)
      requires Valid()
      modifies this, table
      ensures Valid() && calls == old(calls) + [Call.Erase(name)]
      ensures View() == AfterErase(old(View()), name)
    {
      EraseKeepsOrder(View(), name, calls, Call.Erase(name));
      Remove(name);
      calls := calls + [Call.Erase(name)];
    }

    /** Off the table, and then off the cache. */
    method Remove(name: Name)
      requires Consistent()
      modifies this`lru, this`inUse, this`handles, this`deleted, this`clients, this`usage, table
      ensures Consistent() && View() == AfterErase(old(View()), name)
    {
      EraseKeepsInv(View(), name);
      var r := table.Remove(name);
      if r.Some? {
        FinishErase(r.value);
      } else {
        assert table.contents == old(table.contents);
      }
    }

    method EvictOldest(ghost s: State, pruning: bool)
      requires table.Valid() && SomeEvicted(s, View(), pruning)
      requires lru != [] && (pruning || usage > capacity)
      modifies this`lru, this`inUse, this`handles, this`deleted, this`clients, this`usage, table
      ensures table.Valid() && SomeEvicted(s, View(), pruning) && |lru| < |old(lru)|
    {
      EvictAnother(s, View(), pruning);
      OldestIsCached(View());
      Remove(handles[lru[0]].name);
    }

    /** Evicts the entries released longest ago: all of them, or while there is
        too much in the cache. */
    method Evict(pruning: bool)
      requires Consistent()
      modifies this`lru, this`inUse, this`handles, this`deleted, this`clients, this`usage, table
      ensures table.Valid() && SomeEvicted(old(View()), View(), pruning)
      ensures lru == [] || (!pruning && usage <= capacity)
    {
      NoneEvicted(View(), pruning);
      while (pruning || usage > capacity) && lru != []
        invariant table.Valid() && SomeEvicted(old(View()), View(), pruning)
        decreases |lru|
      {
        EvictOldest(old(View()), pruning);
      }
    }

    method Prune() returns (ghost evicted: nat)
      requires Valid()
      modifies this, table
      ensures Valid() && calls == old(calls) + [Call.Prune]
      ensures Evicted(old(View()), View(), evicted) && lru == []
    {
      ghost var s := View();
      Evict(true);
      evicted := HowManyEvicted(s, View(), true);
      OtherCallKeepsOrder(s.lru, calls, Call.Prune);
      calls := calls + [Call.Prune];
      EvictKeepsOrder(s, View(), evicted, calls);
    }

    method AddCached(name: Name, value: Bytes, charge: nat) returns (id: Id, replaced: Option<Id>)
      requires table.Valid() && capacity > 0
      modifies this, table
      ensures table.Valid() && id == old(next) && calls == old(calls)
      ensures View() == AddEntry(old(View()), name, value, charge)
      ensures replaced == if name in old(table.contents) then Some(old(table.contents)[name]) else None
    {
      id := next;
      next := next + 1;
      clients := clients[id := 1];
      handles := handles[id := Handle(name, value, charge, true, 2)];
      inUse := inUse + [id];
      usage := usage + charge;
      replaced := table.Insert(Item(name, id));
    }

    method AddUncached(name: Name, value: Bytes, charge: nat) returns (id: Id)
      requires capacity == 0
      modifies this
      ensures id == old(next) && calls == old(calls) && View() == AddEntry(old(View()), name, value, charge)
    {
      id := next;
      next := next + 1;
      clients := clients[id := 1];
      handles := handles[id := Handle(name, value, charge, false, 1)];
    }

    method Replace(name: Name, value: Bytes, charge: nat) returns (id: Id)
      requires table.Valid() && capacity > 0
      requires CanReplace(View(), name, value, charge)
      modifies this, table
      ensures table.Valid() && id == old(next) && calls == old(calls)
      ensures View() == AddEntry(AfterErase(old(View()), name), name, value, charge)
    {
      var replaced;
      id, replaced := AddCached(name, value, charge);
      if replaced.Some? {
        FinishErase(replaced.value);
      }
    }

    /** Makes the entry and puts it in the table, off which any entry of its name goes. */
    method AddAndReplace(name: Name, value: Bytes, charge: nat) returns (id: Id)
      requires Consistent()
      modifies this, table
      ensures Consistent() && id == old(next) && calls == old(calls)
      ensures View() == Inserted(old(View()), name, value, charge)
    {
      ghost var s := View();
      if capacity > 0 {
        EraseKeepsInv(s, name);
        ReplaceIsPossible(s, name, value, charge);
        id := Replace(name, value, charge);
        AddCachedKeepsInv(AfterErase(s, name), name, value, charge);
      } else {
        id := AddUncached(name, value, charge);
        AddUncachedKeepsInv(s, name, value, charge);
      }
    }

    /** A new entry, held by the caller, in the place of the one with its name;
        afterwards the charge fits, or every cached entry has a client.  Only as much
        is evicted as that takes, and all of it was released before what stays. */
    method Insert(name: Name, value: Bytes, charge: nat) returns (id: Id, ghost evicted: nat)
      requires Valid()
      modifies this, table
      ensures Valid() && id == old(next) && calls == old(calls) + [Call.Insert(name, value, charge)]
      ensures var s := Inserted(old(View()), name, value, charge);
        && Evicted(s, View(), evicted)
        && EvictedFirst(s.lru, lru, evicted, calls)
        && (evicted > 0 ==> usage + Charge(s.handles, s.lru[evicted - 1]) > capacity)
      ensures usage <= capacity || lru == []
    {
      ghost var s := Inserted(View(), name, value, charge);
      InsertKeepsOrder(View(), name, value, charge, calls);
      id := AddAndReplace(name, value, charge);
      Evict(false);
      evicted := HowManyEvicted(s, View(), false);
      calls := calls + [Call.Insert(name, value, charge)];
      EvictKeepsOrder(s, View(), evicted, calls);
    }
  }

  /** In every state that the operations reach, each entry ever made has had its
      deleter called, once, exactly when neither the cache nor a client holds it. */
  lemma DeletedWhenUnheld(s: State, id: Id)
    requires Inv(s) && id < s.next
    ensures id in s.deleted <==> !Cached(s, id) && (id in s.clients ==> s.clients[id] == 0)
    ensures forall i, j :: 0 <= i < j < |s.deleted| && s.deleted[i] == id ==> s.deleted[j] != id
  {
  }

  /** The charge in use is that of the entries in the table. */
  lemma UsageIsOfTable(s: State)
    requires Inv(s)
    ensures s.usage == Sum(s.handles, s.lru) + Sum(s.handles, s.inUse)
    ensures forall id :: id in s.lru + s.inUse <==> id in s.table.Values
    ensures Distinct(s.lru + s.inUse)
  {
    forall id | id in s.lru + s.inUse ensures id in s.table.Values {
      assert s.handles[id].name in s.table && s.table[s.handles[id].name] == id;
    }
    forall n | n in s.table ensures s.table[n] in s.lru + s.inUse {
      assert s.handles[s.table[n]].refs == 1 || s.handles[s.table[n]].refs >= 2;
    }
    forall i, j | 0 <= i < |s.lru| && 0 <= j < |s.inUse| ensures s.lru[i] != s.inUse[j] {
      assert s.lru[i] in s.lru && s.inUse[j] in s.inUse;
    }
  }
}
