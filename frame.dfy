/**
 * Per-frame data shared between passes: the blackboard of transient texture
 * ids, the render lists of draw commands, and the 64-bit sort key that
 * orders opaque draws by state and transparent draws back to front.
 */
module Frame {
  import opened Wrappers
  import opened Sorting
  import opened Gpu

  // ---- FrameBlackboard ----

  /** Cross-pass transient ids; `None` means the producing pass did not run this frame. */
  class FrameBlackboard {
    var ssaoTextureId: Option<u32>
    var transmissionTextureId: Option<u32>
    var sceneNormalTextureId: Option<u32>
    var featureIdTextureId: Option<u32>
    var sssssPingpongTextureId: Option<u32>
    var specularTextureId: Option<u32>

    ghost predicate Empty()
      reads this
    {
      && ssaoTextureId.None? && transmissionTextureId.None? && sceneNormalTextureId.None?
      && featureIdTextureId.None? && sssssPingpongTextureId.None? && specularTextureId.None?
    }

    /** `new` (the derived default). */
    constructor ()
      ensures Empty()
    {
      ssaoTextureId := None;
      transmissionTextureId := None;
      sceneNormalTextureId := None;
      featureIdTextureId := None;
      sssssPingpongTextureId := None;
      specularTextureId := None;
    }

    /** `clear`: all six ids back to `None`. */
    method Clear()
      modifies this
      ensures Empty()
    {
      ssaoTextureId := None;
      transmissionTextureId := None;
      sceneNormalTextureId := None;
      featureIdTextureId := None;
      sssssPingpongTextureId := None;
      specularTextureId := None;
    }
  }

  // ---- RenderKey ----

  const TWO_14: nat := 0x4000
  const TWO_20: nat := 0x10_0000
  const TWO_30: nat := 0x4000_0000
  const DEPTH_MASK: nat := 0x3FFF_FFFF

  /**
   * The 30 depth bits from the IEEE-754 bits of the squared camera
   * distance: 0 when the sign bit is set, else the bits shifted right by 2,
   * masked to 30 bits.
   */
  function DepthBits(depthBits: u32): (d: nat)
    ensures d < TWO_30
    ensures depthBits >= 0x8000_0000 ==> d == 0
    ensures depthBits < 0x8000_0000 ==> d == depthBits / 4
  {
    if depthBits >= 0x8000_0000 then 0 else (depthBits / 4) % TWO_30
  }

  /**
   * `RenderKey::new`. The source ORs shifted fields that never overlap, so
   * the key is written as a mixed-radix number here: opaque keys are
   * pipeline (14 bits) : material (20) : depth (30); transparent keys are
   * inverted depth (30) : pipeline (14) : material (20).
   */
  function RenderKeyNew(pipelineId: u16, materialIndex: u32, depthBits: u32, transparent: bool): (k: u64)
    ensures !transparent ==>
      && k % TWO_30 == DepthBits(depthBits)
      && (k / TWO_30) % TWO_20 == materialIndex % TWO_20
      && (k / TWO_30) / TWO_20 == pipelineId % TWO_14
    ensures transparent ==>
      && k % TWO_20 == materialIndex % TWO_20
      && (k / TWO_20) % TWO_14 == pipelineId % TWO_14
      && (k / TWO_20) / TWO_14 == DEPTH_MASK - DepthBits(depthBits)
  {
    var d := DepthBits(depthBits);
    var p := pipelineId % TWO_14;
    var m := materialIndex % TWO_20;
    if transparent then
      PackBound(p, m, TWO_20, TWO_14);
      PackBound(DEPTH_MASK - d, p * TWO_20 + m, TWO_14 * TWO_20, TWO_30);
      Unpack(DEPTH_MASK - d, p, TWO_14);
      Unpack((DEPTH_MASK - d) * TWO_14 + p, m, TWO_20);
      PackAssoc(DEPTH_MASK - d, p, m, TWO_14, TWO_20);
      (((DEPTH_MASK - d) * TWO_14 + p) * TWO_20 + m)
    else
      PackBound(p, m, TWO_20, TWO_14);
      PackBound(p * TWO_20 + m, d, TWO_30, TWO_14 * TWO_20);
      Unpack(p, m, TWO_20);
      Unpack(p * TWO_20 + m, d, TWO_30);
      (p * TWO_20 + m) * TWO_30 + d
  }

  /** Shifting a field past a lower field of width `k` and masking gets both back. */
  lemma Unpack(hi: nat, lo: nat, k: nat)
    requires lo < k
    ensures (hi * k + lo) / k == hi && (hi * k + lo) % k == lo
  {
    var x := hi * k + lo;
    var q := x / k;
    var r := x % k;
    assert x == q * k + r;
    MulMono(q + 1, hi, k);
    MulMono(hi + 1, q, k);
  }

  lemma MulMono(a: nat, b: nat, k: nat)
    ensures a <= b ==> a * k <= b * k
  {
  }

  lemma PackBound(hi: nat, lo: nat, k: nat, h: nat)
    requires lo < k && hi < h
    ensures hi * k + lo < h * k
  {
    assert (hi + 1) * k <= h * k;
  }

  lemma PackAssoc(a: nat, b: nat, c: nat, kb: nat, kc: nat)
    ensures ((a * kb + b) * kc + c) < 0x1_0000_0000_0000_0000 <==> (a * (kb * kc) + (b * kc + c)) < 0x1_0000_0000_0000_0000
  {
    assert (a * kb + b) * kc + c == a * (kb * kc) + (b * kc + c);
  }

  /** Packed keys compare like the pairs of their fields, high field first. */
  lemma PackLess(h1: nat, l1: nat, h2: nat, l2: nat, k: nat)
    requires l1 < k && l2 < k
    ensures h1 * k + l1 < h2 * k + l2 <==> h1 < h2 || (h1 == h2 && l1 < l2)
  {
    if h1 < h2 {
      assert (h1 + 1) * k <= h2 * k;
    } else if h1 > h2 {
      assert (h2 + 1) * k <= h1 * k;
    }
  }

  /** Opaque keys order by pipeline, then material, then depth (front to back). */
  lemma OpaqueKeyOrder(p1: u16, m1: u32, d1: u32, p2: u16, m2: u32, d2: u32)
    ensures var a := (p1 % TWO_14, m1 % TWO_20, DepthBits(d1));
      var b := (p2 % TWO_14, m2 % TWO_20, DepthBits(d2));
      RenderKeyNew(p1, m1, d1, false) < RenderKeyNew(p2, m2, d2, false) <==>
        a.0 < b.0 || (a.0 == b.0 && (a.1 < b.1 || (a.1 == b.1 && a.2 < b.2)))
  {
    var p1', m1', e1 := p1 % TWO_14, m1 % TWO_20, DepthBits(d1);
    var p2', m2', e2 := p2 % TWO_14, m2 % TWO_20, DepthBits(d2);
    PackLess(p1', m1', p2', m2', TWO_20);
    PackLess(p1' * TWO_20 + m1', e1, p2' * TWO_20 + m2', e2, TWO_30);
  }

  /**
   * Transparent keys order by inverted depth, then pipeline, then material:
   * the farther object sorts first.
   */
  lemma TransparentKeyOrder(p1: u16, m1: u32, d1: u32, p2: u16, m2: u32, d2: u32)
    ensures var a := (p1 % TWO_14, m1 % TWO_20, DepthBits(d1));
      var b := (p2 % TWO_14, m2 % TWO_20, DepthBits(d2));
      RenderKeyNew(p1, m1, d1, true) < RenderKeyNew(p2, m2, d2, true) <==>
        a.2 > b.2 || (a.2 == b.2 && (a.0 < b.0 || (a.0 == b.0 && a.1 < b.1)))
  {
    var p1', m1', e1 := p1 % TWO_14, m1 % TWO_20, DEPTH_MASK - DepthBits(d1);
    var p2', m2', e2 := p2 % TWO_14, m2 % TWO_20, DEPTH_MASK - DepthBits(d2);
    PackLess(e1, p1', e2, p2', TWO_14);
    PackLess(e1 * TWO_14 + p1', m1', e2 * TWO_14 + p2', m2', TWO_20);
  }

  /** Back to front: a transparent draw with more depth bits gets the smaller key. */
  lemma TransparentBackToFront(p1: u16, m1: u32, d1: u32, p2: u16, m2: u32, d2: u32)
    requires DepthBits(d1) > DepthBits(d2)
    ensures RenderKeyNew(p1, m1, d1, true) < RenderKeyNew(p2, m2, d2, true)
  {
    TransparentKeyOrder(p1, m1, d1, p2, m2, d2);
  }

  // ---- RenderLists ----

  /** One draw: handles for its GPU objects, the pipeline id and its sort key. */
  datatype RenderCommand = RenderCommand(
    objectBindGroup: Handle,
    geometry: Handle,
    material: Handle,
    pipelineId: u16,
    pipeline: Handle,
    sortKey: u64,
    dynamicOffset: u32,
    ssFeatureMask: u32)

  datatype ShadowRenderCommand = ShadowRenderCommand(objectBindGroup: Handle, geometry: Handle, material: Handle, pipeline: Handle, dynamicOffset: u32)

  datatype ShadowLightInstance = ShadowLightInstance(lightId: u64, layerIndex: u32, lightBufferIndex: nat)

  datatype PreparedSkyboxDraw = PreparedSkyboxDraw(pipeline: Handle, bindGroup: Handle)

  predicate KeyLe(a: RenderCommand, b: RenderCommand)
  {
    a.sortKey <= b.sortKey
  }

  lemma KeyLeTotalPreorder()
    ensures TotalPreorder(KeyLe)
  {
  }

  class RenderLists {
    var opaqueList: seq<RenderCommand>
    var transparentList: seq<RenderCommand>
    var shadowQueues: map<(u64, u32), seq<ShadowRenderCommand>>
    var shadowLights: seq<ShadowLightInstance>
    var activeViews: seq<Handle>
    var gpuGlobalBindGroupId: u64
    var gpuGlobalBindGroup: Option<Handle>
    var useTransmission: bool
    var preparedSkybox: Option<PreparedSkyboxDraw>

    /** Everything cleared, apart from the global bind group id. */
    ghost predicate Cleared()
      reads this
    {
      && opaqueList == [] && transparentList == [] && shadowQueues == map[]
      && shadowLights == [] && activeViews == []
      && gpuGlobalBindGroup.None? && !useTransmission && preparedSkybox.None?
    }

    /** The per-frame state apart from the two draw lists. */
    ghost function Others(): (map<(u64, u32), seq<ShadowRenderCommand>>, seq<ShadowLightInstance>, seq<Handle>,
                               u64, Option<Handle>, bool, Option<PreparedSkyboxDraw>)
      reads this
    {
      (shadowQueues, shadowLights, activeViews, gpuGlobalBindGroupId, gpuGlobalBindGroup, useTransmission, preparedSkybox)
    }

    constructor ()
      ensures Cleared() && gpuGlobalBindGroupId == 0
    {
      opaqueList := [];
      transparentList := [];
      shadowQueues := map[];
      shadowLights := [];
      activeViews := [];
      gpuGlobalBindGroupId := 0;
      gpuGlobalBindGroup := None;
      useTransmission := false;
      preparedSkybox := None;
    }

    /** `clear`: the global bind group id is kept for state tracking. */
    method Clear()
      modifies this
      ensures Cleared()
      ensures gpuGlobalBindGroupId == old(gpuGlobalBindGroupId)
    {
      opaqueList := [];
      transparentList := [];
      shadowQueues := map[];
      shadowLights := [];
      activeViews := [];
      gpuGlobalBindGroup := None;
      useTransmission := false;
      preparedSkybox := None;
    }

    method InsertOpaque(cmd: RenderCommand)
      modifies this
      ensures opaqueList == old(opaqueList) + [cmd]
      ensures transparentList == old(transparentList)
      ensures Others() == old(Others())
    {
      opaqueList := opaqueList + [cmd];
    }

    method InsertTransparent(cmd: RenderCommand)
      modifies this
      ensures transparentList == old(transparentList) + [cmd]
      ensures opaqueList == old(opaqueList)
      ensures Others() == old(Others())
    {
      transparentList := transparentList + [cmd];
    }

    /**
     * `sort`: both lists in ascending key order. The library sort is
     * unstable, so only order and permutation are promised.
     */
    method Sort()
      modifies this
      ensures SortedBy(opaqueList, KeyLe) && multiset(opaqueList) == multiset(old(opaqueList))
      ensures SortedBy(transparentList, KeyLe) && multiset(transparentList) == multiset(old(transparentList))
      ensures Others() == old(Others())
    {
      KeyLeTotalPreorder();
      SortBySorted(opaqueList, KeyLe);
      SortByPermutes(opaqueList, KeyLe);
      SortBySorted(transparentList, KeyLe);
      SortByPermutes(transparentList, KeyLe);
      opaqueList := SortBy(opaqueList, KeyLe);
      transparentList := SortBy(transparentList, KeyLe);
    }

    /** `is_empty`: no opaque and no transparent draw. */
    function IsEmpty(): (r: bool)
      reads this
      ensures r <==> |opaqueList| + |transparentList| == 0
    {
      opaqueList == [] && transparentList == []
    }
  }
}
