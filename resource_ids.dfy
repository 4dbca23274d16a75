/**
 * Physical resource ids and the fingerprints built from them. A GPU
 * resource gets a new 64-bit id whenever it is rebuilt, so a bind group
 * must be rebuilt exactly when the ordered list of ids it was made from
 * changes. `ResourceIdSet` keeps that list with a lazily cached hash for a
 * fast inequality test; FxHash is a parameter of the model, a fixed
 * function of the list.
 */
module ResourceIds {
  import opened Wrappers

  type ResourceId = u64

  /** The id recorded for an absent resource. */
  const INVALID_RESOURCE_ID: ResourceId := U64_MAX

  /** FxHash of the length followed by every id. */
  type IdsHasher = seq<ResourceId> -> u64

  datatype EnsureResult = EnsureResult(resourceId: ResourceId, wasRecreated: bool)

  /** `EnsureResult::existing`: the resource was already there. */
  function Existing(id: ResourceId): (r: EnsureResult)
    ensures r.resourceId == id && !r.wasRecreated
  {
    EnsureResult(id, false)
  }

  /** `EnsureResult::created`: the resource was just built or rebuilt. */
  function Created(id: ResourceId): (r: EnsureResult)
    ensures r.resourceId == id && r.wasRecreated
  {
    EnsureResult(id, true)
  }

  /** `unwrap_or(INVALID_RESOURCE_ID)`. */
  function IdOrInvalid(id: Option<ResourceId>): (r: ResourceId)
    ensures id.Some? ==> r == id.value
    ensures id.None? ==> r == INVALID_RESOURCE_ID
  {
    match id
    case Some(v) => v
    case None => INVALID_RESOURCE_ID
  }

  class ResourceIdSet {
    const hasher: IdsHasher
    var ids: seq<ResourceId>
    var cachedHash: u64
    var hashDirty: bool

    /** A clean cache holds the hash of the current ids. */
    ghost predicate Valid()
      reads this
    {
      !hashDirty ==> cachedHash == hasher(ids)
    }

    /** `new`: no ids, the cache marked dirty. */
    constructor (hasher: IdsHasher)
      ensures this.hasher == hasher && ids == [] && hashDirty && Valid()
    {
      this.hasher := hasher;
      ids := [];
      cachedHash := 0;
      hashDirty := true;
    }

    /** `push`. */
    method Push(id: ResourceId)
      modifies this
      ensures ids == old(ids) + [id] && hashDirty && Valid()
    {
      ids := ids + [id];
      hashDirty := true;
    }

    /** `push_optional`: an absent id is recorded as `u64::MAX`. */
    method PushOptional(id: Option<ResourceId>)
      modifies this
      ensures ids == old(ids) + [IdOrInvalid(id)] && hashDirty && Valid()
    {
      ids := ids + [IdOrInvalid(id)];
      hashDirty := true;
    }

    /** `clear`. */
    method Clear()
      modifies this
      ensures ids == [] && hashDirty && Valid()
    {
      ids := [];
      hashDirty := true;
    }

    function Len(): (n: nat)
      reads this
      ensures n == |ids|
    {
      |ids|
    }

    function IsEmpty(): (r: bool)
      reads this
      ensures r <==> ids == []
    {
      |ids| == 0
    }

    function AsSlice(): (s: seq<ResourceId>)
      reads this
      ensures s == ids
    {
      ids
    }

    /** `matches_slice`: exactly when the ids are that sequence. */
    predicate MatchesSlice(other: seq<ResourceId>)
      reads this
    {
      ids == other
    }

    /** `compute_hash` through `hash_value`: recomputes only when dirty; the ids stay as they are. */
    method HashValue() returns (h: u64)
      requires Valid()
      modifies this
      ensures h == hasher(ids) && ids == old(ids) && !hashDirty && Valid()
    {
      if hashDirty {
        cachedHash := hasher(ids);
        hashDirty := false;
      }
      h := cachedHash;
    }

    /**
     * `matches`: compares lengths, then the cached hashes, then the ids.
     * Both sets use the same FxHash, so the shortcuts never change the
     * answer: it is ids equality.
     */
    method Matches(other: ResourceIdSet) returns (r: bool)
      requires Valid() && other.Valid() && other.hasher == hasher
      modifies this, other
      ensures r <==> old(ids) == old(other.ids)
      ensures ids == old(ids) && other.ids == old(other.ids) && Valid() && other.Valid()
    {
      if |ids| != |other.ids| {
        return false;
      }
      var h1 := HashValue();
      var h2 := other.HashValue();
      if h1 != h2 {
        return false;
      }
      r := ids == other.ids;
    }
  }

  /** All the ids a bind group depends on, in binding order, with the hash of its layout entries. */
  datatype BindGroupFingerprint = BindGroupFingerprint(resourceIds: seq<ResourceId>, layoutHash: u64)
  {
    /** `resources_changed`. */
    predicate ResourcesChanged(newIds: seq<ResourceId>)
    {
      resourceIds != newIds
    }

    /** `layout_changed`. */
    predicate LayoutChanged(newLayoutHash: u64)
    {
      layoutHash != newLayoutHash
    }
  }

  /** A fingerprint needs no rebuild exactly when it is the fingerprint of the new state. */
  lemma UnchangedIffSameFingerprint(fp: BindGroupFingerprint, newIds: seq<ResourceId>, newLayoutHash: u64)
    ensures !fp.ResourcesChanged(newIds) && !fp.LayoutChanged(newLayoutHash)
      <==> fp == BindGroupFingerprint(newIds, newLayoutHash)
  {
  }

  /** `push_optional` over a list of optional ids, in order, as the bind-group builders do. */
  method PushAll(s: ResourceIdSet, ids: seq<Option<ResourceId>>)
    requires s.Valid()
    modifies s
    ensures s.ids == old(s.ids) + RecordedIds(ids) && s.Valid()
  {
    var i := 0;
    while i < |ids|
      invariant 0 <= i <= |ids|
      invariant s.ids == old(s.ids) + RecordedIds(ids[..i]) && s.Valid()
    {
      RecordedIdsSnoc(ids, i);
      s.PushOptional(ids[i]);
      i := i + 1;
    }
    assert ids[..i] == ids;
  }

  /** The ids `push_optional` records for a list of optional ids. */
  function RecordedIds(ids: seq<Option<ResourceId>>): (r: seq<ResourceId>)
    ensures |r| == |ids|
    ensures forall i :: 0 <= i < |ids| ==> r[i] == IdOrInvalid(ids[i])
    decreases |ids|
  {
    if ids == [] then [] else RecordedIds(ids[..|ids| - 1]) + [IdOrInvalid(ids[|ids| - 1])]
  }

  lemma RecordedIdsSnoc(ids: seq<Option<ResourceId>>, i: nat)
    requires i < |ids|
    ensures RecordedIds(ids[..i + 1]) == RecordedIds(ids[..i]) + [IdOrInvalid(ids[i])]
  {
    assert ids[..i + 1][..i] == ids[..i];
  }

  /** Present ids that are all below `u64::MAX` are recorded faithfully: different inputs, different records. */
  lemma RecordedIdsInjective(a: seq<Option<ResourceId>>, b: seq<Option<ResourceId>>)
    requires forall i :: 0 <= i < |a| && a[i].Some? ==> a[i].value != INVALID_RESOURCE_ID
    requires forall i :: 0 <= i < |b| && b[i].Some? ==> b[i].value != INVALID_RESOURCE_ID
    ensures RecordedIds(a) == RecordedIds(b) <==> a == b
  {
    if RecordedIds(a) == RecordedIds(b) {
      assert |a| == |b|;
      forall i | 0 <= i < |a| ensures a[i] == b[i] {
        assert RecordedIds(a)[i] == RecordedIds(b)[i];
      }
    }
  }
}
