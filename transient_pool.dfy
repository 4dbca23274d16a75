/**
 * The transient texture pool: per-frame render targets are handed out by
 * dense index from an `active` list, and at the frame boundary they move to
 * a free list keyed by their descriptor, where later frames reuse them.
 * The free list is a hash map from `PoolKey` to a bucket of textures; the
 * model keeps it as a list of buckets with pairwise distinct keys.
 */
module TransientPool {
  import opened Wrappers
  import opened Gpu

  /** What decides whether a texture can be reused: size, format, usage, mips. */
  datatype PoolKey = PoolKey(width: u32, height: u32, format: nat, usage: nat, mipLevelCount: u32)

  datatype TextureDesc = TextureDesc(width: u32, height: u32, format: nat, usage: nat, mipLevelCount: u32)

  function KeyOf(desc: TextureDesc): PoolKey
  {
    PoolKey(desc.width, desc.height, desc.format, desc.usage, desc.mipLevelCount)
  }

  /** A GPU texture remembers the descriptor it was created with. */
  datatype Texture = Texture(handle: Handle, key: PoolKey)

  datatype PooledTexture = PooledTexture(texture: Texture, defaultView: Handle, mipViews: seq<Handle>, idleFrames: u32)

  /** `TransientTextureId`: a bare index into `active`. */
  type TransientTextureId = u32

  datatype Bucket = Bucket(key: PoolKey, textures: seq<PooledTexture>)

  // ---- the free list as a map ----

  function FindBucket(free: seq<Bucket>, key: PoolKey): (r: Option<nat>)
    ensures r.Some? ==> r.value < |free| && free[r.value].key == key
    ensures r.None? ==> forall i :: 0 <= i < |free| ==> free[i].key != key
  {
    if free == [] then None
    else if free[|free| - 1].key == key then Some(|free| - 1)
    else FindBucket(free[..|free| - 1], key)
  }

  ghost predicate KeysDistinct(free: seq<Bucket>)
  {
    forall i, j :: 0 <= i < j < |free| ==> free[i].key != free[j].key
  }

  /** `free.entry(key).or_default().push(t)` with the key read back from the texture. */
  function PushFree(free: seq<Bucket>, t: PooledTexture): seq<Bucket>
  {
    match FindBucket(free, t.texture.key)
    case Some(i) => free[i := Bucket(free[i].key, free[i].textures + [t])]
    case None => free + [Bucket(t.texture.key, [t])]
  }

  /** The free list after `reset` has moved `ts` over, in order. */
  function ResetAll(free: seq<Bucket>, ts: seq<PooledTexture>): seq<Bucket>
    decreases |ts|
  {
    if ts == [] then free else ResetAll(PushFree(free, ts[0]), ts[1..])
  }

  /**
   * One more idle frame: `idle_frames += 1` on a `u32`, which wraps in a
   * release build.
   */
  function Aged(t: PooledTexture): (r: PooledTexture)
    ensures r.texture == t.texture && r.defaultView == t.defaultView && r.mipViews == t.mipViews
    ensures t.idleFrames < U32_MODULUS - 1 ==> r.idleFrames == t.idleFrames + 1
    ensures t.idleFrames == U32_MODULUS - 1 ==> r.idleFrames == 0
  {
    t.(idleFrames := WrappingIncU32(t.idleFrames))
  }

  function Age(ts: seq<PooledTexture>, maxIdle: nat): (r: seq<PooledTexture>)
    ensures |r| <= |ts|
  {
    if ts == [] then []
    else
      var t := Aged(ts[0]);
      (if t.idleFrames <= maxIdle then [t] else []) + Age(ts[1..], maxIdle)
  }

  /** Every bucket aged by one frame, then buckets left empty removed. */
  function TrimFree(free: seq<Bucket>, maxIdle: nat): seq<Bucket>
  {
    if free == [] then []
    else
      var b := Age(free[0].textures, maxIdle);
      (if b == [] then [] else [Bucket(free[0].key, b)]) + TrimFree(free[1..], maxIdle)
  }

  function FreeCount(free: seq<Bucket>): nat
  {
    if free == [] then 0 else |free[0].textures| + FreeCount(free[1..])
  }

  // ---- texture identity ----

  /** How many of `ts` are the GPU texture `h`. */
  function CountTex(ts: seq<PooledTexture>, h: Handle): nat
  {
    if ts == [] then 0 else (if ts[0].texture.handle == h then 1 else 0) + CountTex(ts[1..], h)
  }

  function FreeTex(free: seq<Bucket>, h: Handle): nat
  {
    if free == [] then 0 else CountTex(free[0].textures, h) + FreeTex(free[1..], h)
  }

  /** Every texture sits in the bucket of its own descriptor and has one view per mip. */
  ghost predicate WellKeyed(ts: seq<PooledTexture>, key: PoolKey)
  {
    forall k :: 0 <= k < |ts| ==> ts[k].texture.key == key && |ts[k].mipViews| == key.mipLevelCount
  }

  ghost predicate FreeWellKeyed(free: seq<Bucket>)
  {
    forall i :: 0 <= i < |free| ==> WellKeyed(free[i].textures, free[i].key)
  }

  ghost predicate ActiveWellFormed(ts: seq<PooledTexture>)
  {
    forall k :: 0 <= k < |ts| ==> |ts[k].mipViews| == ts[k].texture.key.mipLevelCount
  }

  class TransientTexturePool {
    var active: seq<PooledTexture>
    var free: seq<Bucket>

    /** How many times the pool holds GPU texture `h`, active or free. */
    function Owned(h: Handle): nat
      reads this
    {
      CountTex(active, h) + FreeTex(free, h)
    }

    /**
     * Free buckets have distinct keys and hold only textures of their key;
     * no texture is held twice; every texture came from `device`.
     */
    ghost predicate Valid(device: Device)
      reads this, device
    {
      && KeysDistinct(free)
      && FreeWellKeyed(free)
      && ActiveWellFormed(active)
      && (forall h: Handle :: Owned(h) <= 1)
      && (forall h: Handle :: Owned(h) > 0 ==> h < device.next)
    }

    constructor ()
      ensures active == [] && free == []
    {
      active := [];
      free := [];
    }

    /**
     * `allocate`: reuse the last free texture with an equal key, or create
     * one; the id is the active count before the call.
     */
    method Allocate(device: Device, desc: TextureDesc) returns (id: TransientTextureId)
      requires Valid(device)
      modifies this, device
      ensures Valid(device)
      ensures id == |old(active)| % U32_MODULUS
      ensures |active| == |old(active)| + 1 && active[..|old(active)|] == old(active)
      ensures active[|old(active)|].texture.key == KeyOf(desc)
      ensures active[|old(active)|].idleFrames == 0
      ensures |active[|old(active)|].mipViews| == desc.mipLevelCount
      ensures match FindBucket(old(free), KeyOf(desc))
        case Some(i) =>
          if old(free)[i].textures != [] then
            var bucket := old(free)[i].textures;
            && active[|old(active)|] == bucket[|bucket| - 1].(idleFrames := 0)
            && free == old(free)[i := Bucket(KeyOf(desc), bucket[..|bucket| - 1])]
          else active[|old(active)|].texture.handle == old(device.next) && free == old(free)
        case None => active[|old(active)|].texture.handle == old(device.next) && free == old(free)
    {
      var key := KeyOf(desc);
      var pooled: PooledTexture;
      ghost var created := true;
      ghost var free0 := free;
      var found := FindBucket(free, key);
      if found.Some? && free[found.value].textures != [] {
        created := false;
        var i := found.value;
        var bucket := free[i].textures;
        var last := |bucket| - 1;
        pooled := bucket[last].(idleFrames := 0);
        var b := Bucket(key, bucket[..last]);
        assert bucket == bucket[..last] + [bucket[last]];
        free := free[i := b];
        forall h: Handle ensures FreeTex(free, h) + (if pooled.texture.handle == h then 1 else 0) == FreeTex(free0, h) {
          FreeTexUpdate(free0, i, b, h);
          CountTexConcat(bucket[..last], [bucket[last]], h);
        }
      } else {
        pooled := NewPooled(device, desc);
      }
      ghost var handle := pooled.texture.handle;
      assert created ==> handle == old(device.next);

      // The source rebuilds the per-mip views when their number differs
      // from the request; under `Valid` that safety net never fires.
      assert |pooled.mipViews| == desc.mipLevelCount;

      id := |active| % U32_MODULUS;
      active := active + [pooled];
      forall h: Handle
        ensures Owned(h) == old(Owned(h)) + (if created && handle == h then 1 else 0)
      {
        CountTexConcat(old(active), [pooled], h);
      }
      if created {
        assert old(Owned(handle)) == 0;
      }
    }

    /** `get_view`: the default view of the texture with that id (panics when out of range). */
    function GetView(id: TransientTextureId): (v: Handle)
      reads this
      requires id < |active|
      ensures v == active[id].defaultView
    {
      active[id].defaultView
    }

    /** `get_mip_view`: one mip level's view (panics when either index is out of range). */
    function GetMipView(id: TransientTextureId, mipLevel: u32): (v: Handle)
      reads this
      requires id < |active| && mipLevel < |active[id].mipViews|
      ensures v == active[id].mipViews[mipLevel]
    {
      active[id].mipViews[mipLevel]
    }

    function GetTexture(id: TransientTextureId): (t: Texture)
      reads this
      requires id < |active|
      ensures t == active[id].texture
    {
      active[id].texture
    }

    function MipCount(id: TransientTextureId): (n: nat)
      reads this
      requires id < |active|
      ensures n == |active[id].mipViews|
    {
      |active[id].mipViews|
    }

    /** `reset`: drain `active` into the free list under each texture's own key. */
    method Reset(ghost device: Device)
      requires Valid(device)
      modifies this
      ensures Valid(device)
      ensures active == []
      ensures free == ResetAll(old(free), old(active))
      ensures TotalTextureCount() == old(TotalTextureCount())
    {
      var i := 0;
      while i < |active|
        invariant 0 <= i <= |active|
        invariant active == old(active)
        invariant free == ResetAll(old(free), old(active)[..i])
        invariant KeysDistinct(free) && FreeWellKeyed(free)
        invariant forall h :: FreeTex(free, h) == FreeTex(old(free), h) + CountTex(active[..i], h)
        invariant FreeCount(free) == FreeCount(old(free)) + i
      {
        ResetAllSnoc(old(free), active[..i], active[i]);
        assert active[..i + 1] == active[..i] + [active[i]];
        PushFreeKeeps(free, active[i]);
        forall h ensures CountTex(active[..i + 1], h) == CountTex(active[..i], h) + (if active[i].texture.handle == h then 1 else 0) {
          CountTexConcat(active[..i], [active[i]], h);
        }
        free := PushFree(free, active[i]);
        i := i + 1;
      }
      assert active[..i] == active;
      active := [];
      forall h: Handle ensures Owned(h) == old(Owned(h)) && Owned(h) <= 1 {
        assert CountTex([], h) == 0;
        assert old(Owned(h)) <= 1;
      }
    }

    /**
     * `trim`: every free texture ages one frame; those idle longer than
     * `maxIdleFrames` are dropped, and emptied buckets with them.
     */
    method Trim(ghost device: Device, maxIdleFrames: u32)
      requires Valid(device)
      modifies this
      ensures Valid(device)
      ensures active == old(active)
      ensures free == TrimFree(old(free), maxIdleFrames)
    {
      var out := TrimBuckets(free, maxIdleFrames);
      TrimKeeps(free, maxIdleFrames);
      forall h ensures FreeTex(out, h) <= FreeTex(free, h) {
        TrimTex(free, maxIdleFrames, h);
      }
      free := out;
      forall h: Handle ensures Owned(h) <= old(Owned(h)) && (Owned(h) > 0 ==> h < device.next) {
        assert old(Owned(h)) > 0 ==> h < device.next;
      }
    }

    /** `total_texture_count`: active textures plus every free bucket's length. */
    function TotalTextureCount(): (n: nat)
      reads this
      ensures n == |active| + FreeCount(free)
    {
      |active| + FreeCount(free)
    }
  }

  /** The outer `retain` over the buckets: each bucket aged, the emptied ones dropped. */
  method TrimBuckets(free: seq<Bucket>, maxIdleFrames: u32) returns (out: seq<Bucket>)
    ensures out == TrimFree(free, maxIdleFrames)
  {
    out := [];
    var i := 0;
    while i < |free|
      invariant 0 <= i <= |free|
      invariant TrimFree(free, maxIdleFrames) == out + TrimFree(free[i..], maxIdleFrames)
    {
      var aged := AgeBucket(free[i].textures, maxIdleFrames);
      assert free[i..] == [free[i]] + free[i + 1..];
      if aged != [] {
        out := out + [Bucket(free[i].key, aged)];
      }
      i := i + 1;
    }
    assert free[i..] == [];
  }

  /** One bucket's `iter_mut` + `retain` pass. */
  method AgeBucket(ts: seq<PooledTexture>, maxIdle: nat) returns (kept: seq<PooledTexture>)
    ensures kept == Age(ts, maxIdle)
  {
    kept := [];
    var k := |ts|;
    while k > 0
      invariant 0 <= k <= |ts|
      invariant kept == Age(ts[k..], maxIdle)
    {
      k := k - 1;
      assert ts[k..][1..] == ts[k + 1..];
      var t := Aged(ts[k]);
      if t.idleFrames <= maxIdle {
        kept := [t] + kept;
      }
    }
  }

  /** `PooledTexture::new`: a texture, its default view and one view per mip. */
  method NewPooled(device: Device, desc: TextureDesc) returns (p: PooledTexture)
    modifies device
    ensures p.texture == Texture(old(device.next), KeyOf(desc))
    ensures p.idleFrames == 0 && |p.mipViews| == desc.mipLevelCount
    ensures device.next > old(device.next)
  {
    var tex := device.Create();
    var view := device.Create();
    var mips := CreateMipViews(device, desc.mipLevelCount);
    p := PooledTexture(Texture(tex, KeyOf(desc)), view, mips, 0);
  }

  method CreateMipViews(device: Device, count: nat) returns (views: seq<Handle>)
    modifies device
    ensures |views| == count
    ensures device.next >= old(device.next)
  {
    views := [];
    while |views| < count
      invariant |views| <= count
      invariant device.next >= old(device.next)
    {
      var v := device.Create();
      views := views + [v];
    }
  }

  // ---- lemmas ----

  lemma {:induction false} CountTexConcat(a: seq<PooledTexture>, b: seq<PooledTexture>, h: Handle)
    ensures CountTex(a + b, h) == CountTex(a, h) + CountTex(b, h)
  {
    if a == [] {
      assert a + b == b;
    } else {
      assert (a + b)[1..] == a[1..] + b;
      CountTexConcat(a[1..], b, h);
    }
  }

  lemma {:induction false} FreeTexUpdate(free: seq<Bucket>, i: nat, b: Bucket, h: Handle)
    requires i < |free|
    ensures FreeTex(free[i := b], h) + CountTex(free[i].textures, h) == FreeTex(free, h) + CountTex(b.textures, h)
  {
    var f := free[i := b];
    if i == 0 {
      assert f[1..] == free[1..];
    } else {
      assert f[0] == free[0];
      assert f[1..] == free[1..][i - 1 := b];
      FreeTexUpdate(free[1..], i - 1, b, h);
    }
  }

  lemma {:induction false} FreeTexSnoc(free: seq<Bucket>, b: Bucket, h: Handle)
    ensures FreeTex(free + [b], h) == FreeTex(free, h) + CountTex(b.textures, h)
  {
    if free == [] {
      assert [b][1..] == [];
    } else {
      assert (free + [b])[1..] == free[1..] + [b];
      FreeTexSnoc(free[1..], b, h);
    }
  }

  lemma {:induction false} FreeCountUpdate(free: seq<Bucket>, i: nat, b: Bucket)
    requires i < |free|
    ensures FreeCount(free[i := b]) + |free[i].textures| == FreeCount(free) + |b.textures|
  {
    var f := free[i := b];
    if i == 0 {
      assert f[1..] == free[1..];
    } else {
      assert f[0] == free[0];
      assert f[1..] == free[1..][i - 1 := b];
      FreeCountUpdate(free[1..], i - 1, b);
    }
  }

  lemma {:induction false} FreeCountSnoc(free: seq<Bucket>, b: Bucket)
    ensures FreeCount(free + [b]) == FreeCount(free) + |b.textures|
  {
    if free == [] {
      assert [b][1..] == [];
    } else {
      assert (free + [b])[1..] == free[1..] + [b];
      FreeCountSnoc(free[1..], b);
    }
  }

  /** `PushFree` keeps the bucket invariants and adds exactly `t`. */
  lemma PushFreeKeeps(free: seq<Bucket>, t: PooledTexture)
    requires KeysDistinct(free) && FreeWellKeyed(free)
    requires |t.mipViews| == t.texture.key.mipLevelCount
    ensures KeysDistinct(PushFree(free, t)) && FreeWellKeyed(PushFree(free, t))
    ensures forall h :: FreeTex(PushFree(free, t), h) == FreeTex(free, h) + (if t.texture.handle == h then 1 else 0)
    ensures FreeCount(PushFree(free, t)) == FreeCount(free) + 1
  {
    PushFreeShape(free, t);
    PushFreeCounts(free, t);
  }

  lemma PushFreeShape(free: seq<Bucket>, t: PooledTexture)
    requires KeysDistinct(free) && FreeWellKeyed(free)
    requires |t.mipViews| == t.texture.key.mipLevelCount
    ensures KeysDistinct(PushFree(free, t)) && FreeWellKeyed(PushFree(free, t))
  {
    var f := PushFree(free, t);
    match FindBucket(free, t.texture.key)
    case Some(i) =>
      assert |f| == |free|;
      assert forall j :: 0 <= j < |f| ==> f[j].key == free[j].key;
      assert WellKeyed(f[i].textures, f[i].key);
    case None =>
      assert forall j :: 0 <= j < |free| ==> f[j] == free[j];
  }

  lemma PushFreeCounts(free: seq<Bucket>, t: PooledTexture)
    ensures forall h :: FreeTex(PushFree(free, t), h) == FreeTex(free, h) + (if t.texture.handle == h then 1 else 0)
    ensures FreeCount(PushFree(free, t)) == FreeCount(free) + 1
  {
    match FindBucket(free, t.texture.key)
    case Some(i) =>
      var b := Bucket(free[i].key, free[i].textures + [t]);
      forall h ensures FreeTex(PushFree(free, t), h) == FreeTex(free, h) + (if t.texture.handle == h then 1 else 0) {
        FreeTexUpdate(free, i, b, h);
        CountTexConcat(free[i].textures, [t], h);
      }
      FreeCountUpdate(free, i, b);
    case None =>
      var b := Bucket(t.texture.key, [t]);
      forall h ensures FreeTex(PushFree(free, t), h) == FreeTex(free, h) + (if t.texture.handle == h then 1 else 0) {
        FreeTexSnoc(free, b, h);
      }
      FreeCountSnoc(free, b);
  }

  lemma {:induction false} ResetAllSnoc(free: seq<Bucket>, ts: seq<PooledTexture>, t: PooledTexture)
    ensures ResetAll(free, ts + [t]) == PushFree(ResetAll(free, ts), t)
    decreases |ts|
  {
    if ts == [] {
      assert ([t])[1..] == [];
    } else {
      assert (ts + [t])[1..] == ts[1..] + [t];
      ResetAllSnoc(PushFree(free, ts[0]), ts[1..], t);
    }
  }

  lemma FindBucketUnique(free: seq<Bucket>, key: PoolKey, i: nat)
    requires i < |free| && free[i].key == key
    requires forall j :: 0 <= j < |free| && j != i ==> free[j].key != key
    ensures FindBucket(free, key) == Some(i)
  {
  }

  lemma PushFreeContains(free: seq<Bucket>, t: PooledTexture)
    requires KeysDistinct(free)
    ensures FindBucket(PushFree(free, t), t.texture.key).Some?
    ensures t in PushFree(free, t)[FindBucket(PushFree(free, t), t.texture.key).value].textures
  {
    var f := PushFree(free, t);
    match FindBucket(free, t.texture.key)
    case Some(i) =>
      FindBucketUnique(f, t.texture.key, i);
      assert f[i].textures == free[i].textures + [t];
    case None =>
      FindBucketUnique(f, t.texture.key, |free|);
  }

  lemma PushFreeKeepsMember(free: seq<Bucket>, u: PooledTexture, t: PooledTexture)
    requires KeysDistinct(free)
    requires FindBucket(free, t.texture.key).Some?
    requires t in free[FindBucket(free, t.texture.key).value].textures
    ensures FindBucket(PushFree(free, u), t.texture.key).Some?
    ensures t in PushFree(free, u)[FindBucket(PushFree(free, u), t.texture.key).value].textures
  {
    var i := FindBucket(free, t.texture.key).value;
    var f := PushFree(free, u);
    match FindBucket(free, u.texture.key)
    case Some(j) =>
      FindBucketUnique(f, t.texture.key, i);
      if i == j {
        assert f[i].textures == free[i].textures + [u];
      }
    case None =>
      FindBucketUnique(f, t.texture.key, i);
  }

  /** Moving more textures into the free list never loses one that is already there. */
  lemma {:induction false} ResetAllKeepsMembers(free: seq<Bucket>, ts: seq<PooledTexture>, t: PooledTexture)
    requires KeysDistinct(free) && FreeWellKeyed(free) && ActiveWellFormed(ts)
    requires FindBucket(free, t.texture.key).Some?
    requires t in free[FindBucket(free, t.texture.key).value].textures
    ensures FindBucket(ResetAll(free, ts), t.texture.key).Some?
    ensures t in ResetAll(free, ts)[FindBucket(ResetAll(free, ts), t.texture.key).value].textures
    decreases |ts|
  {
    if ts != [] {
      PushFreeShape(free, ts[0]);
      PushFreeKeepsMember(free, ts[0], t);
      ResetAllKeepsMembers(PushFree(free, ts[0]), ts[1..], t);
    }
  }

  /**
   * After `reset` every texture that was active is in the free list, in the
   * bucket of its own key.
   */
  lemma {:induction false} ResetReturnsEveryTexture(free: seq<Bucket>, ts: seq<PooledTexture>, k: nat)
    requires KeysDistinct(free) && FreeWellKeyed(free) && ActiveWellFormed(ts)
    requires k < |ts|
    ensures FindBucket(ResetAll(free, ts), ts[k].texture.key).Some?
    ensures ts[k] in ResetAll(free, ts)[FindBucket(ResetAll(free, ts), ts[k].texture.key).value].textures
    decreases |ts|
  {
    PushFreeShape(free, ts[0]);
    var free' := PushFree(free, ts[0]);
    if k == 0 {
      PushFreeContains(free, ts[0]);
      ResetAllKeepsMembers(free', ts[1..], ts[0]);
    } else {
      ResetReturnsEveryTexture(free', ts[1..], k - 1);
    }
  }

  /** `reset` keeps the pool's texture count: it only moves textures. */
  lemma {:induction false} ResetAllCount(free: seq<Bucket>, ts: seq<PooledTexture>)
    requires KeysDistinct(free) && FreeWellKeyed(free) && ActiveWellFormed(ts)
    ensures FreeCount(ResetAll(free, ts)) == FreeCount(free) + |ts|
    decreases |ts|
  {
    if ts != [] {
      PushFreeKeeps(free, ts[0]);
      ResetAllCount(PushFree(free, ts[0]), ts[1..]);
    }
  }

  lemma {:induction false} AgeWithinBound(ts: seq<PooledTexture>, maxIdle: nat, k: nat)
    requires k < |Age(ts, maxIdle)|
    ensures Age(ts, maxIdle)[k].idleFrames <= maxIdle
  {
    var t := Aged(ts[0]);
    var head := if t.idleFrames <= maxIdle then [t] else [];
    if k >= |head| {
      AgeWithinBound(ts[1..], maxIdle, k - |head|);
    }
  }

  /** After `trim` no bucket is empty and every kept texture is within the idle bound. */
  lemma {:induction false} TrimmedWithinBound(free: seq<Bucket>, maxIdle: nat, i: nat, k: nat)
    requires i < |TrimFree(free, maxIdle)|
    ensures TrimFree(free, maxIdle)[i].textures != []
    ensures k < |TrimFree(free, maxIdle)[i].textures| ==> TrimFree(free, maxIdle)[i].textures[k].idleFrames <= maxIdle
  {
    var b := Age(free[0].textures, maxIdle);
    var head := if b == [] then [] else [Bucket(free[0].key, b)];
    if i < |head| {
      if k < |b| {
        AgeWithinBound(free[0].textures, maxIdle, k);
      }
    } else {
      TrimmedWithinBound(free[1..], maxIdle, i - |head|, k);
    }
  }

  /** A texture survives `trim` exactly when its aged idle count is within the bound. */
  lemma {:induction false} AgeKeepsExactly(ts: seq<PooledTexture>, maxIdle: nat, t: PooledTexture)
    ensures t in Age(ts, maxIdle) <==>
      exists k :: 0 <= k < |ts| && t == Aged(ts[k]) && t.idleFrames <= maxIdle
  {
    if ts != [] {
      AgeKeepsExactly(ts[1..], maxIdle, t);
      var t0 := Aged(ts[0]);
      var head := if t0.idleFrames <= maxIdle then [t0] else [];
      assert Age(ts, maxIdle) == head + Age(ts[1..], maxIdle);
      assert forall k :: 1 <= k < |ts| ==> ts[k] == ts[1..][k - 1];
      if t in Age(ts[1..], maxIdle) {
        var k :| 0 <= k < |ts[1..]| && t == Aged(ts[1..][k]) && t.idleFrames <= maxIdle;
        assert t == Aged(ts[k + 1]);
      }
    }
  }

  lemma {:induction false} AgeShape(ts: seq<PooledTexture>, maxIdle: nat, key: PoolKey, h: Handle)
    requires WellKeyed(ts, key)
    ensures CountTex(Age(ts, maxIdle), h) <= CountTex(ts, h)
    ensures WellKeyed(Age(ts, maxIdle), key)
  {
    if ts != [] {
      AgeShape(ts[1..], maxIdle, key, h);
      var t := Aged(ts[0]);
      var head := if t.idleFrames <= maxIdle then [t] else [];
      CountTexConcat(head, Age(ts[1..], maxIdle), h);
      forall k | 0 <= k < |Age(ts, maxIdle)|
        ensures Age(ts, maxIdle)[k].texture.key == key && |Age(ts, maxIdle)[k].mipViews| == key.mipLevelCount
      {
        if k >= |head| {
          assert Age(ts, maxIdle)[k] == Age(ts[1..], maxIdle)[k - |head|];
        }
      }
    }
  }

  lemma {:induction false} TrimFreeKeys(free: seq<Bucket>, maxIdle: nat, key: PoolKey)
    requires forall i :: 0 <= i < |free| ==> free[i].key != key
    ensures forall i :: 0 <= i < |TrimFree(free, maxIdle)| ==> TrimFree(free, maxIdle)[i].key != key
  {
    if free != [] {
      TrimFreeKeys(free[1..], maxIdle, key);
    }
  }

  /** `trim` keeps the free-list invariants. */
  lemma {:induction false} TrimKeeps(free: seq<Bucket>, maxIdle: nat)
    requires KeysDistinct(free) && FreeWellKeyed(free)
    ensures KeysDistinct(TrimFree(free, maxIdle)) && FreeWellKeyed(TrimFree(free, maxIdle))
  {
    if free != [] {
      TrimKeeps(free[1..], maxIdle);
      TrimFreeKeys(free[1..], maxIdle, free[0].key);
      AgeShape(free[0].textures, maxIdle, free[0].key, 0);
      var rest := TrimFree(free[1..], maxIdle);
      var b := Age(free[0].textures, maxIdle);
      if b != [] {
        assert TrimFree(free, maxIdle) == [Bucket(free[0].key, b)] + rest;
      } else {
        assert TrimFree(free, maxIdle) == rest;
      }
    }
  }

  /** `trim` only ever drops textures. */
  lemma {:induction false} TrimTex(free: seq<Bucket>, maxIdle: nat, h: Handle)
    requires FreeWellKeyed(free)
    ensures FreeTex(TrimFree(free, maxIdle), h) <= FreeTex(free, h)
  {
    if free != [] {
      TrimTex(free[1..], maxIdle, h);
      AgeShape(free[0].textures, maxIdle, free[0].key, h);
      var rest := TrimFree(free[1..], maxIdle);
      var b := Age(free[0].textures, maxIdle);
      if b != [] {
        assert TrimFree(free, maxIdle) == [Bucket(free[0].key, b)] + rest;
        assert ([Bucket(free[0].key, b)] + rest)[1..] == rest;
      } else {
        assert TrimFree(free, maxIdle) == rest;
      }
    }
  }
}
