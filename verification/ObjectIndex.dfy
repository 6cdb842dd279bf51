/**
 The two-level object index of the simulated chain's store
 (crates/simulacrum/src/store.rs, `live_objects` and `objects`).
 */
module ObjectIndexes {
  import opened ChainTypes

  datatype Owner = AddressOwner(address: nat) | ObjectOwner(parent: nat) | Shared | Immutable

  datatype Object = Object(id: nat, version: nat, owner: Owner, data: nat)

  /** The current version of each live object, and every version ever written. */
  datatype ObjectIndex = ObjectIndex(live: map<nat, nat>, objects: History)

  const EMPTY_INDEX := ObjectIndex(map[], map[])

  function GetAtVersion(ix: ObjectIndex, id: nat, version: nat): Option<Object> {
    if id in ix.objects && version in ix.objects[id] then Some(ix.objects[id][version]) else None
  }

  function GetObject(ix: ObjectIndex, id: nat): Option<Object> {
    if id in ix.live then GetAtVersion(ix, id, ix.live[id]) else None
  }

  function OwnedObjects(ix: ObjectIndex, owner: nat): set<Object> {
    set id | id in ix.live && GetAtVersion(ix, id, ix.live[id]).Some?
             && GetAtVersion(ix, id, ix.live[id]).value.owner == AddressOwner(owner)
           :: GetAtVersion(ix, id, ix.live[id]).value
  }

  /** The objects a transaction wrote, keyed by their own ids, and the ids it deleted. */
  datatype Update = Update(written: map<nat, Object>, deleted: seq<nat>)

  ghost predicate KeyedById(written: map<nat, Object>) {
    forall id | id in written :: written[id].id == id
  }

  // ---------------------------------------------------------------- update_objects

  type History = map<nat, map<nat, Object>>

  function Versions(objects: History, id: nat): map<nat, Object> {
    if id in objects then objects[id] else map[]
  }

  function LiveAfter(live: map<nat, nat>, written: map<nat, Object>, deleted: seq<nat>): map<nat, nat> {
    map id | id in live.Keys + written.Keys && (id in written || id !in deleted)
           :: (if id in written then written[id].version else live[id])
  }

  function HistoryAfter(objects: History, written: map<nat, Object>): History {
    map id | id in objects.Keys + written.Keys
           :: (if id in written then Versions(objects, id)[written[id].version := written[id]] else objects[id])
  }

  /** Deletions first, so an object both deleted and written stays live. */
  function UpdateObjects(ix: ObjectIndex, u: Update): ObjectIndex {
    ObjectIndex(LiveAfter(ix.live, u.written, u.deleted), HistoryAfter(ix.objects, u.written))
  }

  class ObjectTable {
    var live: map<nat, nat>
    var objects: History

    function View(): ObjectIndex
      reads this
    {
      ObjectIndex(live, objects)
    }

    method Delete(deleted: seq<nat>)
      modifies `live
      ensures live == LiveAfter(old(live), map[], deleted)
    {
      var i := 0;
      while i < |deleted|
        invariant 0 <= i <= |deleted|
        invariant live == map id | id in old(live) && id !in deleted[..i] :: old(live)[id]
      {
        live := live - {deleted[i]};
        i := i + 1;
      }
    }

    method Enter(id: nat, obj: Object)
      modifies this
      ensures live == old(live)[id := obj.version]
      ensures objects == old(objects)[id := Versions(old(objects), id)[obj.version := obj]]
    {
      live := live[id := obj.version];
      var versions := if id in objects then objects[id] else map[];
      objects := objects[id := versions[obj.version := obj]];
    }

    /** Whatever order the written map is iterated in. */
    method EnterAll(written: map<nat, Object>, ghost live0: map<nat, nat>, ghost deleted: seq<nat>)
      requires live == LiveAfter(live0, map[], deleted)
      modifies this
      ensures live == LiveAfter(live0, written, deleted)
      ensures objects == HistoryAfter(old(objects), written)
    {
      var todo := written.Keys;
      ghost var done: map<nat, Object> := map[];
      assert objects == HistoryAfter(objects, done);
      while todo != {}
        invariant todo <= written.Keys && done.Keys == written.Keys - todo
        invariant forall id | id in done :: done[id] == written[id]
        invariant live == LiveAfter(live0, done, deleted)
        invariant objects == HistoryAfter(old(objects), done)
      {
        var id :| id in todo;
        LiveAfterOne(live0, done, deleted, id, written[id]);
        HistoryAfterOne(old(objects), done, id, written[id]);
        Enter(id, written[id]);
        todo := todo - {id};
        done := done[id := written[id]];
      }
      assert done == written;
    }

    method Apply(written: map<nat, Object>, deleted: seq<nat>)
      modifies this
      ensures View() == UpdateObjects(old(View()), Update(written, deleted))
    {
      Delete(deleted);
      EnterAll(written, old(live), deleted);
    }
  }

  lemma LiveAfterOne(live: map<nat, nat>, done: map<nat, Object>, deleted: seq<nat>, id: nat, obj: Object)
    ensures LiveAfter(live, done[id := obj], deleted) == LiveAfter(live, done, deleted)[id := obj.version]
  {
  }

  lemma HistoryAfterOne(objects: History, done: map<nat, Object>, id: nat, obj: Object)
    requires id !in done
    ensures HistoryAfter(objects, done[id := obj])
         == HistoryAfter(objects, done)[id := Versions(HistoryAfter(objects, done), id)[obj.version := obj]]
  {
    assert Versions(HistoryAfter(objects, done), id) == Versions(objects, id);
  }

  // ---------------------------------------------------------------- the plain map it refines

  /** Replays updates on a map from ids to objects. */
  function Replay(updates: seq<Update>): map<nat, Object> {
    if updates == [] then map[]
    else
      var u := updates[|updates| - 1];
      (Replay(updates[..|updates| - 1]) - (set id | id in u.deleted)) + u.written
  }

  function Index(updates: seq<Update>): ObjectIndex {
    if updates == [] then EMPTY_INDEX
    else UpdateObjects(Index(updates[..|updates| - 1]), updates[|updates| - 1])
  }

  /** The index answers like the plain map, and every live version is in the history. */
  ghost predicate Refines(ix: ObjectIndex, m: map<nat, Object>) {
    && ix.live.Keys == m.Keys
    && (forall id | id in m :: GetObject(ix, id) == Some(m[id]))
  }

  lemma UpdateRefines(ix: ObjectIndex, m: map<nat, Object>, u: Update)
    requires Refines(ix, m)
    ensures Refines(UpdateObjects(ix, u), (m - (set id | id in u.deleted)) + u.written)
  {
    var ix', m' := UpdateObjects(ix, u), (m - (set id | id in u.deleted)) + u.written;
    forall id | id in m' ensures GetObject(ix', id) == Some(m'[id]) {
      if id !in u.written { assert GetObject(ix, id) == Some(m[id]); }
    }
    assert ix'.live.Keys == m'.Keys;
  }

  /** After any updates, `get_object` returns the last write that was not deleted since, and nothing
      for other ids. */
  lemma {:induction false} IndexRefinesReplay(updates: seq<Update>)
    ensures Refines(Index(updates), Replay(updates))
    ensures forall id :: GetObject(Index(updates), id)
                      == if id in Replay(updates) then Some(Replay(updates)[id]) else None
  {
    if updates == [] {
    } else {
      IndexRefinesReplay(updates[..|updates| - 1]);
      UpdateRefines(Index(updates[..|updates| - 1]), Replay(updates[..|updates| - 1]), updates[|updates| - 1]);
    }
  }

  lemma {:induction false} ReplayIsKeyed(updates: seq<Update>)
    requires forall u | u in updates :: KeyedById(u.written)
    ensures KeyedById(Replay(updates))
  {
    if updates == [] {
    } else {
      ReplayIsKeyed(updates[..|updates| - 1]);
      assert updates[|updates| - 1] in updates;
    }
  }

  /** `owned_objects` yields exactly the live objects of the owner. */
  lemma OwnedObjectsOfReplay(updates: seq<Update>, owner: nat, obj: Object)
    requires forall u | u in updates :: KeyedById(u.written)
    ensures obj in OwnedObjects(Index(updates), owner)
        <==> obj.id in Replay(updates) && Replay(updates)[obj.id] == obj && obj.owner == AddressOwner(owner)
  {
    IndexRefinesReplay(updates);
    ReplayIsKeyed(updates);
    var ix, m := Index(updates), Replay(updates);
    if obj in OwnedObjects(ix, owner) {
      var id :| id in ix.live && GetAtVersion(ix, id, ix.live[id]) == Some(obj);
      assert GetObject(ix, id) == Some(m[id]);
    }
    if obj.id in m && m[obj.id] == obj && obj.owner == AddressOwner(owner) {
      assert GetObject(ix, obj.id) == Some(obj);
    }
  }

  // ---------------------------------------------------------------- history

  /** An update keeps a recorded version exactly when it does not write a different object at the
      same id and version. */
  lemma UpdateKeepsVersion(ix: ObjectIndex, u: Update, id: nat, version: nat)
    requires GetAtVersion(ix, id, version).Some?
    ensures GetAtVersion(UpdateObjects(ix, u), id, version) == GetAtVersion(ix, id, version)
        <==> !(id in u.written && u.written[id].version == version
               && Some(u.written[id]) != GetAtVersion(ix, id, version))
  {
  }

  predicate Agree(u: Update, v: Update, id: nat) {
    id in u.written && id in v.written && u.written[id].version == v.written[id].version
    ==> u.written[id] == v.written[id]
  }

  /** No two updates write different objects at the same id and version. */
  ghost predicate NoConflict(updates: seq<Update>) {
    forall i, j, id | 0 <= i < |updates| && 0 <= j < |updates| :: Agree(updates[i], updates[j], id)
  }

  predicate ReadsBackAt(ix: ObjectIndex, u: Update, id: nat) {
    id in u.written ==> GetAtVersion(ix, id, u.written[id].version) == Some(u.written[id])
  }

  /** Everything written can be read at its version. */
  ghost predicate ReadsBack(ix: ObjectIndex, updates: seq<Update>) {
    forall i, id | 0 <= i < |updates| :: ReadsBackAt(ix, updates[i], id)
  }

  lemma {:induction false} HistoryIsComplete(updates: seq<Update>, i: nat, id: nat)
    requires NoConflict(updates) && i < |updates|
    ensures ReadsBackAt(Index(updates), updates[i], id)
    decreases |updates|
  {
    var n := |updates| - 1;
    if i < n && id in updates[i].written {
      forall j, k, x | 0 <= j < n && 0 <= k < n ensures Agree(updates[..n][j], updates[..n][k], x) {
        assert Agree(updates[j], updates[k], x);
      }
      HistoryIsComplete(updates[..n], i, id);
      assert Agree(updates[i], updates[n], id);
      UpdateKeepsVersion(Index(updates[..n]), updates[n], id, updates[i].written[id].version);
    }
  }

  /** No version is ever lost exactly when no two updates write different objects at the same id and
      version; fresh versions are a special case. */
  lemma HistoryIsCompleteIff(updates: seq<Update>)
    ensures ReadsBack(Index(updates), updates) <==> NoConflict(updates)
  {
    if NoConflict(updates) {
      forall i, id | 0 <= i < |updates| ensures ReadsBackAt(Index(updates), updates[i], id) {
        HistoryIsComplete(updates, i, id);
      }
    }
    if ReadsBack(Index(updates), updates) {
      forall i, j, id | 0 <= i < |updates| && 0 <= j < |updates| ensures Agree(updates[i], updates[j], id) {
        assert ReadsBackAt(Index(updates), updates[i], id) && ReadsBackAt(Index(updates), updates[j], id);
      }
    }
  }

  ghost predicate FreshIn(ix: ObjectIndex, u: Update) {
    forall id | id in u.written :: GetAtVersion(ix, id, u.written[id].version).None?
  }

  /** Each update writes only versions that have not been recorded before. */
  ghost predicate FreshVersions(updates: seq<Update>) {
    updates != [] ==>
      && FreshVersions(updates[..|updates| - 1])
      && FreshIn(Index(updates[..|updates| - 1]), updates[|updates| - 1])
  }

  /** Fresh versions do not conflict, so with them nothing is lost. */
  lemma {:induction false} FreshHasNoConflict(updates: seq<Update>)
    requires FreshVersions(updates)
    ensures NoConflict(updates)
  {
    if updates == [] {
    } else {
      var n := |updates| - 1;
      FreshHasNoConflict(updates[..n]);
      forall i, id | 0 <= i < n ensures Agree(updates[i], updates[n], id) && Agree(updates[n], updates[i], id) {
        HistoryIsComplete(updates[..n], i, id);
      }
      forall i, j, id | 0 <= i < |updates| && 0 <= j < |updates| ensures Agree(updates[i], updates[j], id) {
        if i < n && j < n { assert Agree(updates[..n][i], updates[..n][j], id); }
      }
    }
  }
}
