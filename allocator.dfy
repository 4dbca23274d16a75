/**
 * The per-frame model-uniform allocator. Each drawn object gets one
 * `DynamicModelUniforms` slot in a shared uniform buffer, addressed by a
 * byte offset that is a multiple of the slot size. The host-side copy grows
 * one slot per allocation; the buffer behind it is rebuilt, and flagged for
 * GPU re-creation, whenever the capacity has to grow.
 */
module Allocator {
  import opened Wrappers
  import opened Buffer

  /** One slot's contents; the matrices are opaque here, kept as their raw 32-bit words. */
  datatype ModelUniforms = ModelUniforms(words: seq<u32>)

  const DEFAULT_UNIFORMS: ModelUniforms := ModelUniforms([])

  /**
   * `size_of::<DynamicModelUniforms>()`: two 4x4 matrices (64 bytes each), a
   * padded 3x3 matrix (48) and 20 floats of padding (80).
   */
  const UNIFORM_STRIDE: nat := 256
  const INITIAL_CAPACITY: nat := 4096
  const MIN_CAPACITY: nat := 128

  /** `GpuData::byte_size` of a `Vec<DynamicModelUniforms>`. */
  function SlotsByteSize(s: seq<ModelUniforms>): nat
  {
    UNIFORM_STRIDE * |s|
  }

  function Max(a: nat, b: nat): nat
  {
    if a >= b then a else b
  }

  /** `expand_capacity`'s new capacity. */
  function Grown(cap: nat): (r: nat)
    ensures r >= 2 * cap && r >= MIN_CAPACITY
  {
    Max(cap * 2, MIN_CAPACITY)
  }

  function Pow2(k: nat): (p: nat)
    ensures p >= 1
  {
    if k == 0 then 1 else 2 * Pow2(k - 1)
  }

  /** The doubling loop of `ensure_capacity`: `cap` doubled until it reaches `required`. */
  function DoubleUntil(cap: nat, required: nat): nat
    requires cap >= 1
    decreases required - cap
  {
    if cap >= required then cap else DoubleUntil(2 * cap, required)
  }

  /** The doubling stops at the first power-of-two multiple of `cap` that reaches `required`. */
  lemma {:induction false} DoubleUntilFacts(cap: nat, required: nat)
    requires cap >= 1
    ensures DoubleUntil(cap, required) >= required
    ensures exists k: nat :: DoubleUntil(cap, required) == cap * Pow2(k)
    ensures DoubleUntil(cap, required) == cap || DoubleUntil(cap, required) < 2 * required
    decreases required - cap
  {
    if cap >= required {
      assert cap == cap * Pow2(0);
    } else {
      DoubleUntilFacts(2 * cap, required);
      var k: nat :| DoubleUntil(2 * cap, required) == 2 * cap * Pow2(k);
      assert DoubleUntil(cap, required) == cap * Pow2(k + 1);
    }
  }

  /** `vec![DynamicModelUniforms::default(); n]`. */
  function Defaults(n: nat): (s: seq<ModelUniforms>)
    ensures |s| == n && forall i :: 0 <= i < n ==> s[i] == DEFAULT_UNIFORMS
  {
    seq(n, _ => DEFAULT_UNIFORMS)
  }

  class ModelBufferAllocator {
    var hostData: seq<ModelUniforms>
    var cursor: nat
    var capacity: nat
    var buffer: CpuBuffer<seq<ModelUniforms>>
    var needsRecreate: bool
    var lastEnsureFrame: u64

    /** The host data holds exactly the slots handed out, and the buffer always has room for them. */
    ghost predicate Valid()
      reads this, buffer
    {
      && |hostData| == cursor
      && cursor <= capacity
      && BufferFits()
    }

    /** The buffer holds `capacity` slots, at least one. */
    ghost predicate BufferFits()
      reads this, buffer
    {
      && capacity >= 1
      && |buffer.data| == capacity
      && buffer.byteSize == SlotsByteSize
    }

    /** `new`: capacity 4096, a buffer of 4096 default slots, nothing allocated. */
    constructor (ids: BufferIdCounter)
      modifies ids
      ensures Valid() && fresh(buffer)
      ensures hostData == [] && cursor == 0 && capacity == INITIAL_CAPACITY
      ensures !needsRecreate && lastEnsureFrame == 0
      ensures buffer.id == old(ids.next) && buffer.data == Defaults(INITIAL_CAPACITY) && buffer.version == 0
    {
      var initialData := Defaults(INITIAL_CAPACITY);
      buffer := new CpuBuffer(ids, initialData, 0, SlotsByteSize);
      hostData := [];
      cursor := 0;
      capacity := INITIAL_CAPACITY;
      needsRecreate := false;
      lastEnsureFrame := 0;
    }

    /** `reset`, at the start of every frame: nothing allocated, nothing to re-create. */
    method Reset()
      requires Valid()
      modifies this
      ensures Valid()
      ensures cursor == 0 && hostData == [] && !needsRecreate
      ensures capacity == old(capacity) && buffer == old(buffer) && lastEnsureFrame == old(lastEnsureFrame)
    {
      cursor := 0;
      hostData := [];
      needsRecreate := false;
    }

    /** `expand_capacity`: at least double, at least 128, and a fresh buffer of that many slots. */
    method ExpandCapacity(ids: BufferIdCounter)
      requires BufferFits()
      modifies this, ids
      ensures BufferFits() && fresh(buffer)
      ensures capacity == Grown(old(capacity)) && needsRecreate
      ensures buffer.data == Defaults(capacity) && buffer.id == old(ids.next) && buffer.version == 0
      ensures hostData == old(hostData) && cursor == old(cursor) && lastEnsureFrame == old(lastEnsureFrame)
    {
      var newCap := Grown(capacity);
      capacity := newCap;
      needsRecreate := true;
      buffer := new CpuBuffer(ids, Defaults(newCap), 0, SlotsByteSize);
    }

    /**
     * `allocate`: the byte offset of the next slot, truncated to `u32` as
     * the source's cast does; the cursor and the host data grow by one.
     */
    method Allocate(ids: BufferIdCounter, data: ModelUniforms) returns (offset: u32)
      requires Valid()
      modifies this, ids
      ensures Valid()
      ensures offset == (old(cursor) * UNIFORM_STRIDE) % U32_MODULUS
      ensures cursor == old(cursor) + 1 && hostData == old(hostData) + [data]
      ensures old(cursor) < old(capacity) ==>
        capacity == old(capacity) && buffer == old(buffer) && needsRecreate == old(needsRecreate)
      ensures old(cursor) == old(capacity) ==>
        capacity == Grown(old(capacity)) && needsRecreate && fresh(buffer) && buffer.data == Defaults(capacity)
      ensures lastEnsureFrame == old(lastEnsureFrame)
    {
      var index := cursor;
      cursor := cursor + 1;
      if cursor > capacity {
        ExpandCapacity(ids);
      }
      hostData := hostData + [data];
      offset := (index * UNIFORM_STRIDE) % U32_MODULUS;
    }

    /**
     * `flush_to_buffer`: nothing when no slot was allocated; otherwise the
     * host data overwrites the front of the buffer through one write guard,
     * so the buffer's version goes up by one.
     */
    method FlushToBuffer()
      requires Valid()
      modifies buffer
      ensures Valid()
      ensures hostData == [] ==> buffer.data == old(buffer.data) && buffer.version == old(buffer.version)
      ensures hostData != [] ==> buffer.data == hostData + old(buffer.data)[|hostData|..]
      ensures hostData != [] ==> buffer.version == WrappingIncU64(old(buffer.version))
    {
      if |hostData| == 0 {
        return;
      }
      var guard := buffer.Write();
      var len := |hostData|;
      guard.Set(hostData + buffer.data[len..]);
      guard.Drop();
    }

    /**
     * `ensure_capacity`: a larger requirement doubles the capacity until it
     * fits (then raises it to at least 128) and rebuilds the buffer; a
     * requirement that already fits changes nothing.
     */
    method EnsureCapacity(ids: BufferIdCounter, requiredCount: nat)
      requires Valid()
      modifies this, ids
      ensures Valid()
      ensures requiredCount <= old(capacity) ==>
        capacity == old(capacity) && buffer == old(buffer) && needsRecreate == old(needsRecreate)
        && ids.next == old(ids.next)
      ensures requiredCount > old(capacity) ==>
        capacity == Max(DoubleUntil(old(capacity), requiredCount), MIN_CAPACITY)
        && needsRecreate && fresh(buffer) && buffer.data == Defaults(capacity)
      ensures capacity >= requiredCount
      ensures hostData == old(hostData) && cursor == old(cursor) && lastEnsureFrame == old(lastEnsureFrame)
    {
      if requiredCount > capacity {
        DoubleUntilFacts(capacity, requiredCount);
        var newCap := capacity;
        while newCap < requiredCount
          invariant newCap >= capacity
          invariant DoubleUntil(newCap, requiredCount) == DoubleUntil(capacity, requiredCount)
          decreases requiredCount - newCap
        {
          newCap := newCap * 2;
        }
        newCap := Max(newCap, MIN_CAPACITY);
        capacity := newCap;
        needsRecreate := true;
        buffer := new CpuBuffer(ids, Defaults(newCap), 0, SlotsByteSize);
      }
    }

    function NeedRecreateBuffer(): (r: bool)
      reads this
      ensures r == needsRecreate
    {
      needsRecreate
    }

    function BufferHandle(): (r: BufferRef)
      reads this, buffer
      ensures r == buffer.Handle()
    {
      buffer.Handle()
    }

    function BufferId(): (id: u64)
      reads this, buffer
      ensures id == buffer.id
    {
      buffer.Handle().id
    }

    /** `len`: the number of slots allocated this frame. */
    function Len(): (n: nat)
      reads this
      ensures n == cursor
    {
      cursor
    }

    function IsEmpty(): (r: bool)
      reads this
      ensures r <==> cursor == 0
    {
      cursor == 0
    }
  }

  /** `uniform_stride`. */
  function UniformStride(): (n: nat)
    ensures n > 0 && n == UNIFORM_STRIDE
  {
    UNIFORM_STRIDE
  }

  /**
   * A frame of `n` allocations from a reset allocator hands out the offsets
   * 0, 256, 512, …, each a multiple of the slot size, and ends with `n`
   * slots of host data and enough capacity for them.
   */
  method AllocateFrame(a: ModelBufferAllocator, ids: BufferIdCounter, items: seq<ModelUniforms>)
    returns (offsets: seq<u32>)
    requires a.Valid()
    requires |items| * UNIFORM_STRIDE < U32_MODULUS
    modifies a, ids
    ensures a.Valid()
    ensures a.hostData == items && a.cursor == |items| && a.capacity >= |items|
    ensures |offsets| == |items|
    ensures forall i :: 0 <= i < |items| ==> offsets[i] == i * UNIFORM_STRIDE
  {
    a.Reset();
    offsets := [];
    var i := 0;
    while i < |items|
      invariant 0 <= i <= |items|
      invariant a.Valid()
      invariant a.hostData == items[..i] && a.cursor == i
      invariant |offsets| == i
      invariant forall k :: 0 <= k < i ==> offsets[k] == k * UNIFORM_STRIDE
    {
      var off := a.Allocate(ids, items[i]);
      assert items[..i + 1] == items[..i] + [items[i]];
      offsets := offsets + [off];
      i := i + 1;
    }
    assert items[..i] == items;
  }
}
