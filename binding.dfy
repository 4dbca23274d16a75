/**
 * The global bind-group cache: bind groups keyed by the id of their layout
 * and the ordered ids of the resources bound in them. Two keys are the same
 * exactly when both parts are, so a bind group is reused only for the very
 * same resources. Bind groups are GPU objects and appear as handles.
 */
module Binding {
  import opened Wrappers
  import opened Gpu

  /** `BindGroupKey`. */
  datatype BindGroupKey = BindGroupKey(layoutId: u64, resources: seq<u64>)

  /** `BindGroupKey::new`: no resources yet. */
  function NewKey(layoutId: u64): (k: BindGroupKey)
    ensures k.layoutId == layoutId && k.resources == []
  {
    BindGroupKey(layoutId, [])
  }

  /** `with_resource`: appends one id, keeping the layout id. */
  function WithResource(k: BindGroupKey, id: u64): (r: BindGroupKey)
    ensures r.layoutId == k.layoutId && r.resources == k.resources + [id]
  {
    k.(resources := k.resources + [id])
  }

  /** The key a builder chain `new(layout).with_resource(ids[0])…` produces. */
  function KeyOf(layoutId: u64, ids: seq<u64>): BindGroupKey
    decreases |ids|
  {
    if ids == [] then NewKey(layoutId) else WithResource(KeyOf(layoutId, ids[..|ids| - 1]), ids[|ids| - 1])
  }

  lemma {:induction false} KeyOfParts(layoutId: u64, ids: seq<u64>)
    ensures KeyOf(layoutId, ids) == BindGroupKey(layoutId, ids)
    decreases |ids|
  {
    if ids != [] {
      KeyOfParts(layoutId, ids[..|ids| - 1]);
      assert ids[..|ids| - 1] + [ids[|ids| - 1]] == ids;
    }
  }

  /** Built keys are equal exactly when the layout ids and the whole resource lists are. */
  lemma KeyEqualIff(l1: u64, ids1: seq<u64>, l2: u64, ids2: seq<u64>)
    ensures KeyOf(l1, ids1) == KeyOf(l2, ids2) <==> l1 == l2 && ids1 == ids2
  {
    KeyOfParts(l1, ids1);
    KeyOfParts(l2, ids2);
  }

  class GlobalBindGroupCache {
    var cache: map<BindGroupKey, Handle>

    /** `new`: empty. */
    constructor ()
      ensures cache == map[]
    {
      cache := map[];
    }

    /** `get`. */
    function Get(key: BindGroupKey): (r: Option<Handle>)
      reads this
      ensures r.Some? <==> key in cache
      ensures r.Some? ==> r.value == cache[key]
    {
      if key in cache then Some(cache[key]) else None
    }

    /** `insert`: replaces any group cached under the key. */
    method Insert(key: BindGroupKey, group: Handle)
      modifies this
      ensures cache == old(cache)[key := group]
    {
      cache := cache[key := group];
    }

    /**
     * `get_or_create`: on a miss the factory runs (once) on `device` and
     * its group is cached; on a hit the cached group comes back and the
     * factory never runs.
     */
    method GetOrCreate(key: BindGroupKey, device: Device) returns (group: Handle, created: bool)
      modifies this, device
      ensures created <==> key !in old(cache)
      ensures !created ==> group == old(cache)[key] && cache == old(cache) && device.next == old(device.next)
      ensures created ==> group == old(device.next) && device.next == old(device.next) + 1
      ensures created ==> cache == old(cache)[key := group]
    {
      if key in cache {
        group := cache[key];
        created := false;
      } else {
        group := device.Create();
        cache := cache[key := group];
        created := true;
      }
    }

    /** `clear`, on resize. */
    method Clear()
      modifies this
      ensures cache == map[]
    {
      cache := map[];
    }
  }

  /** A lookup after an insert under the same key finds the inserted group; other keys are unaffected. */
  method InsertThenGet(c: GlobalBindGroupCache, key: BindGroupKey, group: Handle) returns (found: Option<Handle>)
    modifies c
    ensures found == Some(group)
    ensures forall other :: other != key ==> c.Get(other) == old(c.Get(other))
  {
    c.Insert(key, group);
    found := c.Get(key);
  }

  /** Asking twice for the same key builds the group at most once and returns the same group both times. */
  method GetOrCreateTwice(c: GlobalBindGroupCache, key: BindGroupKey, device: Device)
    returns (first: Handle, second: Handle, secondCreated: bool)
    modifies c, device
    ensures first == second && !secondCreated
  {
    var created1, created2;
    first, created1 := c.GetOrCreate(key, device);
    second, created2 := c.GetOrCreate(key, device);
    secondCreated := created2;
  }
}
