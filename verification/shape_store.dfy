/** The shared shape store: a map from object id to the serialised shape,
    changed only through upsert, delete and clear-all mutations. Concurrent
    commits to one id are resolved by last write wins, whole record. */
module ShapeStore {
  import opened Wrappers

  /** A serialised shape: the object id field plus the remaining fields of
      the canvas library's JSON form, kept opaque. */
  datatype ShapeData = ShapeData(objectId: Option<string>, fields: map<string, string>)

  /** A canvas object: its assigned id and the JSON form the canvas library
      produces for it. */
  datatype CanvasObject = CanvasObject(objectId: string, json: ShapeData)

  type Store = map<string, ShapeData>

  function Lookup(store: Store, id: string): Option<ShapeData> {
    if id in store then Some(store[id]) else None
  }

  /** The record stored for an object: its JSON form with the object id
      field overwritten by the object's own id. */
  function Serialize(o: CanvasObject): (d: ShapeData)
    ensures d.objectId == Some(o.objectId)
    ensures d.fields == o.json.fields
  {
    o.json.(objectId := Some(o.objectId))
  }

  /** Upsert a canvas object; an absent object leaves the store alone. */
  function SyncShape(store: Store, obj: Option<CanvasObject>): (r: Store)
    ensures obj.None? ==> r == store
    ensures obj.Some? ==> r.Keys == store.Keys + {obj.value.objectId}
    ensures obj.Some? ==> r[obj.value.objectId] == Serialize(obj.value)
    ensures obj.Some? ==> r[obj.value.objectId].objectId == Some(obj.value.objectId)
    ensures obj.Some? ==> forall k :: k in store && k != obj.value.objectId ==> r[k] == store[k]
  {
    match obj
    case None => store
    case Some(o) => store[o.objectId := Serialize(o)]
  }

  /** Remove one id; an absent id is a no-op. */
  function DeleteShape(store: Store, id: string): (r: Store)
    ensures r.Keys == store.Keys - {id}
    ensures forall k :: k in r ==> r[k] == store[k]
    ensures id !in store ==> r == store
  {
    store - {id}
  }

  /** Delete the ids one after another, as a caller deleting each selected
      object would. */
  function DeleteShapes(store: Store, ids: seq<string>): (r: Store)
    ensures r.Keys == store.Keys - (set i | i in ids)
    ensures forall k :: k in r ==> r[k] == store[k]
    decreases |ids|
  {
    if |ids| == 0 then store
    else DeleteShapes(DeleteShape(store, ids[0]), ids[1..])
  }

  /** Clear the store by deleting every entry of a snapshot of its keys;
      report whether the store ended up empty. An empty store reports
      success straight away. */
  method DeleteAllShapes(store: Store) returns (ok: bool, r: Store)
    ensures ok
    ensures r == map[]
  {
    r := store;
    if |r| == 0 {
      return true, r;
    }
    var pending := r.Keys;
    while pending != {}
      invariant pending <= store.Keys
      invariant r.Keys == pending
      invariant forall k :: k in r ==> r[k] == store[k]
      decreases pending
    {
      var k :| k in pending;
      r := DeleteShape(r, k);
      pending := pending - {k};
    }
    ok := |r| == 0;
  }

  /** Syncing the same object twice gives the store syncing it once gives. */
  lemma SyncIdempotent(store: Store, obj: Option<CanvasObject>)
    ensures SyncShape(SyncShape(store, obj), obj) == SyncShape(store, obj)
  {
  }

  /** Of two syncs of one id, the later replaces the earlier wholesale. */
  lemma SyncLastWriteWins(store: Store, a: CanvasObject, b: CanvasObject)
    requires a.objectId == b.objectId
    ensures SyncShape(SyncShape(store, Some(a)), Some(b)) == SyncShape(store, Some(b))
  {
  }

  /** Syncs of different ids never conflict: their order does not matter. */
  lemma SyncDistinctCommute(store: Store, a: CanvasObject, b: CanvasObject)
    requires a.objectId != b.objectId
    ensures SyncShape(SyncShape(store, Some(a)), Some(b)) == SyncShape(SyncShape(store, Some(b)), Some(a))
  {
  }

  /** Deleting an id undoes a sync of a new object with that id. */
  lemma DeleteUndoesFreshSync(store: Store, o: CanvasObject)
    requires o.objectId !in store
    ensures DeleteShape(SyncShape(store, Some(o)), o.objectId) == store
  {
  }

  /** A store mutation as it is committed. */
  datatype Commit = Upsert(obj: CanvasObject) | Remove(objectId: string)

  function CommitKey(c: Commit): string {
    match c
    case Upsert(o) => o.objectId
    case Remove(id) => id
  }

  function Apply(store: Store, c: Commit): Store {
    match c
    case Upsert(o) => SyncShape(store, Some(o))
    case Remove(id) => DeleteShape(store, id)
  }

  /** The store after applying the commits in their delivery order. */
  function Replay(store: Store, cs: seq<Commit>): Store
    decreases |cs|
  {
    if |cs| == 0 then store
    else Apply(Replay(store, cs[..|cs| - 1]), cs[|cs| - 1])
  }

  /** The last commit in `cs` that touches `id`, if any. */
  function LastWrite(cs: seq<Commit>, id: string): Option<Commit>
    decreases |cs|
  {
    if |cs| == 0 then None
    else if CommitKey(cs[|cs| - 1]) == id then Some(cs[|cs| - 1])
    else LastWrite(cs[..|cs| - 1], id)
  }

  /** Last write wins: after a replay, each id holds what its last commit
      wrote (nothing after a delete), or its original entry when no commit
      touched it. */
  lemma {:induction false} ReplayLastWriteWins(store: Store, cs: seq<Commit>, id: string)
    ensures Lookup(Replay(store, cs), id) ==
      match LastWrite(cs, id)
      case None => Lookup(store, id)
      case Some(Upsert(o)) => Some(Serialize(o))
      case Some(Remove(_)) => None
    decreases |cs|
  {
    if |cs| > 0 {
      ReplayLastWriteWins(store, cs[..|cs| - 1], id);
    }
  }
}
