/**
 * Asset storage: assets in a slot map behind handles, plus a lookup from
 * the uuid of a loaded file to the handle it was stored under, so that a
 * file loaded twice is stored once. The read-write lock and the `Arc`
 * around each asset are left out: the operations are modelled one
 * at a time. Handles come from a counter, as a versioned slot-map key is
 * never issued twice.
 */
module AssetStorage {
  import opened Wrappers

  type Handle = nat
  type Uuid = nat

  class AssetStorage<T> {
    var assets: map<Handle, T>
    var lookup: map<Uuid, Handle>
    var next: Handle

    /** Every stored handle was issued, and every uuid names a stored asset (nothing is ever removed). */
    ghost predicate Valid()
      reads this
    {
      && (forall h :: h in assets ==> h < next)
      && (forall u :: u in lookup ==> lookup[u] in assets)
    }

    /** `new`: empty. */
    constructor ()
      ensures Valid() && assets == map[] && lookup == map[]
    {
      assets := map[];
      lookup := map[];
      next := 0;
    }

    /** The slot-map insert: the asset under a handle never issued before. */
    method Insert(asset: T) returns (h: Handle)
      requires Valid()
      modifies this
      ensures h == old(next) && next == old(next) + 1
      ensures assets == old(assets)[h := asset] && lookup == old(lookup)
      ensures h !in old(assets) && Valid()
    {
      h := next;
      assets := assets[h := asset];
      next := next + 1;
    }

    /** `add`: a fresh handle under which `get` finds the asset. */
    method Add(asset: T) returns (h: Handle)
      requires Valid()
      modifies this
      ensures Valid() && h !in old(assets) && Get(h) == Some(asset)
      ensures assets == old(assets)[h := asset] && lookup == old(lookup)
    {
      h := Insert(asset);
    }

    /**
     * `add_with_uuid`: a known uuid gives back its handle and stores
     * nothing; a new uuid is stored with the asset under a fresh handle.
     */
    method AddWithUuid(uuid: Uuid, asset: T) returns (h: Handle)
      requires Valid()
      modifies this
      ensures Valid()
      ensures uuid in old(lookup) ==> h == old(lookup)[uuid] && assets == old(assets) && lookup == old(lookup)
      ensures uuid !in old(lookup) ==>
                && h !in old(assets) && assets == old(assets)[h := asset] && lookup == old(lookup)[uuid := h]
    {
      if uuid in lookup {
        return lookup[uuid];
      }
      h := Insert(asset);
      lookup := lookup[uuid := h];
    }

    /** `get`. */
    function Get(h: Handle): (r: Option<T>)
      reads this
      ensures r.Some? <==> h in assets
      ensures r.Some? ==> r.value == assets[h]
    {
      if h in assets then Some(assets[h]) else None
    }

    /** `get_handle_by_uuid`. */
    function GetHandleByUuid(uuid: Uuid): (r: Option<Handle>)
      reads this
      ensures r.Some? <==> uuid in lookup
      ensures r.Some? ==> r.value == lookup[uuid]
    {
      if uuid in lookup then Some(lookup[uuid]) else None
    }

    /** `get_by_uuid`: the asset of the handle the uuid names, if both exist. */
    function GetByUuid(uuid: Uuid): (r: Option<T>)
      reads this
      ensures r.Some? <==> uuid in lookup && lookup[uuid] in assets
      ensures r.Some? ==> r.value == assets[lookup[uuid]]
    {
      if uuid in lookup && lookup[uuid] in assets then Some(assets[lookup[uuid]]) else None
    }
  }

  /** A uuid lookup is a handle lookup followed by `get`; in a valid storage a known uuid always finds its asset. */
  lemma GetByUuidIsGetOfHandle<T>(s: AssetStorage<T>, uuid: Uuid)
    requires s.Valid()
    ensures s.GetByUuid(uuid) == match s.GetHandleByUuid(uuid) case None => None case Some(h) => s.Get(h)
    ensures uuid in s.lookup ==> s.GetByUuid(uuid).Some?
  {
  }

  /**
   * Deduplication keeps the first value: adding two assets under one new
   * uuid gives the same handle twice, and the uuid finds the first asset.
   */
  method AddTwiceKeepsFirst<T>(s: AssetStorage<T>, uuid: Uuid, first: T, second: T) returns (h1: Handle, h2: Handle)
    requires s.Valid() && uuid !in s.lookup
    modifies s
    ensures h1 == h2 && s.GetByUuid(uuid) == Some(first) && s.GetHandleByUuid(uuid) == Some(h1)
    ensures s.assets == old(s.assets)[h1 := first]
  {
    h1 := s.AddWithUuid(uuid, first);
    h2 := s.AddWithUuid(uuid, second);
  }
}
