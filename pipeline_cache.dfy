/**
 * The pipeline cache owns every render and compute pipeline in two dense
 * storage lists and hands out their indices as ids. Level-2 lookups map the
 * 64-bit hash of a family's full pipeline key to an id; level-1 lookups map
 * cheap handle-and-version keys to an id the caller already obtained.
 * Building a pipeline is foreign GPU work and becomes `Device.Create`.
 */
module PipelineCache {
  import opened Wrappers
  import opened Gpu

  type RenderPipelineId = u32
  type ComputePipelineId = u32

  /** The render-pipeline families, each with its own level-2 map. */
  datatype RenderFamily = Graphics | Fullscreen | Shadow

  /** Level-1 key of a material-driven geometry pipeline; handles as ints, scene features as a bit set. */
  datatype FastPipelineKey = FastPipelineKey(
    materialHandle: nat, materialVersion: u64, geometryHandle: nat, geometryVersion: u64,
    instanceVariants: u32, globalStateId: u32, sceneVariants: nat, pipelineSettingsVersion: u64)

  datatype FastShadowPipelineKey = FastShadowPipelineKey(
    materialHandle: nat, materialVersion: u64, geometryHandle: nat, geometryVersion: u64,
    instanceVariants: u32, pipelineSettingsVersion: u64)

  /** Every id a map holds indexes a list of length `n`. */
  ghost predicate IdsBelow<K>(m: map<K, u32>, n: nat)
  {
    forall k :: k in m ==> m[k] < n
  }

  /** The id `push_*_pipeline` hands out: the old length, cast to `u32`. */
  function NextId(len: nat): (id: u32)
    ensures id < len + 1
    ensures len < U32_MODULUS ==> id == len
  {
    len % U32_MODULUS
  }

  /** Recording a fresh id keeps every id of a map in range of the grown list. */
  lemma InsertKeepsIdsBelow<K>(m: map<K, u32>, k: K, len: nat)
    requires IdsBelow(m, len)
    ensures IdsBelow(m[k := NextId(len)], len + 1)
  {
  }

  class PipelineCache {
    var renderPipelines: seq<Handle>
    var computePipelines: seq<Handle>
    var graphicsLookup: map<u64, RenderPipelineId>
    var fullscreenLookup: map<u64, RenderPipelineId>
    var shadowLookup: map<u64, RenderPipelineId>
    var computeLookup: map<u64, ComputePipelineId>
    var fastCache: map<FastPipelineKey, RenderPipelineId>
    var fastShadowCache: map<FastShadowPipelineKey, RenderPipelineId>

    /** Every id held by a level-2 map is a valid index into its storage. */
    ghost predicate Valid()
      reads this
    {
      && IdsBelow(graphicsLookup, |renderPipelines|)
      && IdsBelow(fullscreenLookup, |renderPipelines|)
      && IdsBelow(shadowLookup, |renderPipelines|)
      && IdsBelow(computeLookup, |computePipelines|)
    }

    ghost predicate Empty()
      reads this
    {
      && renderPipelines == [] && computePipelines == []
      && graphicsLookup == map[] && fullscreenLookup == map[] && shadowLookup == map[]
      && computeLookup == map[] && fastCache == map[] && fastShadowCache == map[]
    }

    function Lookup(family: RenderFamily): map<u64, RenderPipelineId>
      reads this
    {
      match family
      case Graphics => graphicsLookup
      case Fullscreen => fullscreenLookup
      case Shadow => shadowLookup
    }

    constructor ()
      ensures Valid() && Empty()
    {
      renderPipelines := [];
      computePipelines := [];
      graphicsLookup := map[];
      fullscreenLookup := map[];
      shadowLookup := map[];
      computeLookup := map[];
      fastCache := map[];
      fastShadowCache := map[];
    }

    /** `get_render_pipeline`: panics on an id out of range. */
    function GetRenderPipeline(id: RenderPipelineId): (p: Handle)
      reads this
      requires id < |renderPipelines|
      ensures p == renderPipelines[id]
    {
      renderPipelines[id]
    }

    function GetComputePipeline(id: ComputePipelineId): (p: Handle)
      reads this
      requires id < |computePipelines|
      ensures p == computePipelines[id]
    {
      computePipelines[id]
    }

    /** `clear`: all storage and all lookups, level 1 and level 2. */
    method Clear()
      modifies this
      ensures Valid() && Empty()
    {
      renderPipelines := [];
      computePipelines := [];
      graphicsLookup := map[];
      fullscreenLookup := map[];
      shadowLookup := map[];
      computeLookup := map[];
      fastCache := map[];
      fastShadowCache := map[];
    }

    /** `get_pipeline_fast`: the id last inserted for `key`, if any. */
    function GetPipelineFast(key: FastPipelineKey): (r: Option<RenderPipelineId>)
      reads this
      ensures r.Some? <==> key in fastCache
      ensures r.Some? ==> r.value == fastCache[key]
    {
      if key in fastCache then Some(fastCache[key]) else None
    }

    method InsertPipelineFast(key: FastPipelineKey, id: RenderPipelineId)
      requires Valid()
      modifies this
      ensures Valid()
      ensures fastCache == old(fastCache)[key := id]
      ensures GetPipelineFast(key) == Some(id)
      ensures forall k :: k != key ==> GetPipelineFast(k) == old(GetPipelineFast(k))
      ensures renderPipelines == old(renderPipelines) && fastShadowCache == old(fastShadowCache)
      ensures graphicsLookup == old(graphicsLookup) && fullscreenLookup == old(fullscreenLookup)
      ensures shadowLookup == old(shadowLookup) && computeLookup == old(computeLookup)
      ensures computePipelines == old(computePipelines)
    {
      fastCache := fastCache[key := id];
    }

    function GetShadowPipelineFast(key: FastShadowPipelineKey): (r: Option<RenderPipelineId>)
      reads this
      ensures r.Some? <==> key in fastShadowCache
      ensures r.Some? ==> r.value == fastShadowCache[key]
    {
      if key in fastShadowCache then Some(fastShadowCache[key]) else None
    }

    method InsertShadowPipelineFast(key: FastShadowPipelineKey, id: RenderPipelineId)
      requires Valid()
      modifies this
      ensures Valid()
      ensures fastShadowCache == old(fastShadowCache)[key := id]
      ensures GetShadowPipelineFast(key) == Some(id)
      ensures renderPipelines == old(renderPipelines) && fastCache == old(fastCache)
      ensures graphicsLookup == old(graphicsLookup) && fullscreenLookup == old(fullscreenLookup)
      ensures shadowLookup == old(shadowLookup) && computeLookup == old(computeLookup)
      ensures computePipelines == old(computePipelines)
    {
      fastShadowCache := fastShadowCache[key := id];
    }

    /** `push_render_pipeline`: append and return the old length as the id. */
    method PushRenderPipeline(pipeline: Handle) returns (id: RenderPipelineId)
      modifies this
      ensures id == NextId(|old(renderPipelines)|)
      ensures renderPipelines == old(renderPipelines) + [pipeline]
      ensures computePipelines == old(computePipelines)
      ensures graphicsLookup == old(graphicsLookup) && fullscreenLookup == old(fullscreenLookup)
      ensures shadowLookup == old(shadowLookup) && computeLookup == old(computeLookup)
      ensures fastCache == old(fastCache) && fastShadowCache == old(fastShadowCache)
    {
      id := NextId(|renderPipelines|);
      renderPipelines := renderPipelines + [pipeline];
    }

    method PushComputePipeline(pipeline: Handle) returns (id: ComputePipelineId)
      modifies this
      ensures id == NextId(|old(computePipelines)|)
      ensures computePipelines == old(computePipelines) + [pipeline]
      ensures renderPipelines == old(renderPipelines)
      ensures graphicsLookup == old(graphicsLookup) && fullscreenLookup == old(fullscreenLookup)
      ensures shadowLookup == old(shadowLookup) && computeLookup == old(computeLookup)
      ensures fastCache == old(fastCache) && fastShadowCache == old(fastShadowCache)
    {
      id := NextId(|computePipelines|);
      computePipelines := computePipelines + [pipeline];
    }

    /**
     * The shared shape of `get_or_create_graphics`, `_shadow` and
     * `_fullscreen`: `hash` is the full key's hash. A hit returns the stored
     * id and changes nothing; a miss builds one pipeline, appends it and
     * records its id under `hash` in this family's map only.
     */
    method GetOrCreateRender(family: RenderFamily, hash: u64, device: Device) returns (id: RenderPipelineId)
      requires Valid()
      modifies this, device
      ensures Valid()
      ensures id < |renderPipelines|
      ensures hash in old(Lookup(family)) ==>
        && id == old(Lookup(family))[hash]
        && renderPipelines == old(renderPipelines)
        && device.next == old(device.next)
      ensures hash !in old(Lookup(family)) ==>
        && id == NextId(|old(renderPipelines)|)
        && renderPipelines == old(renderPipelines) + [old(device.next)]
      ensures Lookup(family) == old(Lookup(family))[hash := id]
      ensures forall f :: f != family ==> Lookup(f) == old(Lookup(f))
      ensures computePipelines == old(computePipelines) && computeLookup == old(computeLookup)
      ensures fastCache == old(fastCache) && fastShadowCache == old(fastShadowCache)
    {
      var lookup := Lookup(family);
      if hash in lookup {
        id := lookup[hash];
        return;
      }
      var pipeline := device.Create();
      id := PushRenderPipeline(pipeline);
      InsertKeepsIdsBelow(lookup, hash, |old(renderPipelines)|);
      match family
      case Graphics => graphicsLookup := graphicsLookup[hash := id];
      case Fullscreen => fullscreenLookup := fullscreenLookup[hash := id];
      case Shadow => shadowLookup := shadowLookup[hash := id];
    }

    method GetOrCreateGraphics(hash: u64, device: Device) returns (id: RenderPipelineId)
      requires Valid()
      modifies this, device
      ensures Valid() && id < |renderPipelines|
      ensures hash in old(graphicsLookup) ==> id == old(graphicsLookup)[hash] && renderPipelines == old(renderPipelines)
      ensures hash !in old(graphicsLookup) ==> id == NextId(|old(renderPipelines)|) && |renderPipelines| == |old(renderPipelines)| + 1
      ensures graphicsLookup == old(graphicsLookup)[hash := id]
      ensures fullscreenLookup == old(fullscreenLookup) && shadowLookup == old(shadowLookup)
    {
      id := GetOrCreateRender(Graphics, hash, device);
      assert Lookup(Fullscreen) == fullscreenLookup && Lookup(Shadow) == shadowLookup;
    }

    method GetOrCreateShadow(hash: u64, device: Device) returns (id: RenderPipelineId)
      requires Valid()
      modifies this, device
      ensures Valid() && id < |renderPipelines|
      ensures hash in old(shadowLookup) ==> id == old(shadowLookup)[hash] && renderPipelines == old(renderPipelines)
      ensures hash !in old(shadowLookup) ==> id == NextId(|old(renderPipelines)|) && |renderPipelines| == |old(renderPipelines)| + 1
      ensures shadowLookup == old(shadowLookup)[hash := id]
      ensures graphicsLookup == old(graphicsLookup) && fullscreenLookup == old(fullscreenLookup)
    {
      id := GetOrCreateRender(Shadow, hash, device);
      assert Lookup(Fullscreen) == fullscreenLookup && Lookup(Graphics) == graphicsLookup;
    }

    method GetOrCreateFullscreen(hash: u64, device: Device) returns (id: RenderPipelineId)
      requires Valid()
      modifies this, device
      ensures Valid() && id < |renderPipelines|
      ensures hash in old(fullscreenLookup) ==> id == old(fullscreenLookup)[hash] && renderPipelines == old(renderPipelines)
      ensures hash !in old(fullscreenLookup) ==> id == NextId(|old(renderPipelines)|) && |renderPipelines| == |old(renderPipelines)| + 1
      ensures fullscreenLookup == old(fullscreenLookup)[hash := id]
      ensures graphicsLookup == old(graphicsLookup) && shadowLookup == old(shadowLookup)
    {
      id := GetOrCreateRender(Fullscreen, hash, device);
      assert Lookup(Graphics) == graphicsLookup && Lookup(Shadow) == shadowLookup;
    }

    /** `get_or_create_compute`: the same rule over compute storage. */
    method GetOrCreateCompute(hash: u64, device: Device) returns (id: ComputePipelineId)
      requires Valid()
      modifies this, device
      ensures Valid() && id < |computePipelines|
      ensures hash in old(computeLookup) ==> id == old(computeLookup)[hash] && computePipelines == old(computePipelines)
      ensures hash !in old(computeLookup) ==>
        && id == NextId(|old(computePipelines)|)
        && computePipelines == old(computePipelines) + [old(device.next)]
      ensures computeLookup == old(computeLookup)[hash := id]
      ensures renderPipelines == old(renderPipelines)
      ensures forall f :: Lookup(f) == old(Lookup(f))
    {
      if hash in computeLookup {
        id := computeLookup[hash];
        return;
      }
      var pipeline := device.Create();
      id := PushComputePipeline(pipeline);
      InsertKeepsIdsBelow(computeLookup, hash, |old(computePipelines)|);
      computeLookup := computeLookup[hash := id];
    }

    function RenderPipelineCount(): (n: nat)
      reads this
      ensures n == |renderPipelines|
    {
      |renderPipelines|
    }

    function ComputePipelineCount(): (n: nat)
      reads this
      ensures n == |computePipelines|
    {
      |computePipelines|
    }
  }

  /** Asking twice for the same key builds at most one pipeline and returns one id. */
  method SecondRequestHits(cache: PipelineCache, family: RenderFamily, hash: u64, device: Device)
    returns (first: RenderPipelineId, second: RenderPipelineId)
    requires cache.Valid()
    modifies cache, device
    ensures first == second
    ensures |cache.renderPipelines| <= |old(cache.renderPipelines)| + 1
  {
    first := cache.GetOrCreateRender(family, hash, device);
    ghost var before := |cache.renderPipelines|;
    second := cache.GetOrCreateRender(family, hash, device);
    assert |cache.renderPipelines| == before;
  }
}
