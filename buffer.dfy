/**
 * CPU-side buffers. A `CpuBuffer` owns its data together with a version
 * and a byte size that the GPU upload code compares against; its id comes
 * from a process-wide counter and never changes. Writing goes through a
 * `BufferGuard`, whose drop bumps the version (wrapping) and refreshes the
 * size unless `skip_sync` was called. The read-write lock around the state
 * is not modelled: calls are sequential.
 */
module Buffer {
  import opened Wrappers

  /** The process-wide `NEXT_BUFFER_ID`, starting at 1; `fetch_add` wraps at 2^64. */
  class BufferIdCounter {
    var next: u64

    constructor ()
      ensures next == 1
    {
      next := 1;
    }

    method Fetch() returns (id: u64)
      modifies this
      ensures id == old(next) && next == WrappingIncU64(old(next))
    {
      id := next;
      next := WrappingIncU64(next);
    }
  }

  /** `BufferRef`: a snapshot handle. Usage flags are an opaque bit set; the debug label is not modelled. */
  datatype BufferRef = BufferRef(id: u64, usage: nat, size: nat, version: u64)

  /** `BufferRef::new`: a fresh id, version 0. */
  method NewBufferRef(ids: BufferIdCounter, size: nat, usage: nat) returns (r: BufferRef)
    modifies ids
    ensures r == BufferRef(old(ids.next), usage, size, 0)
    ensures ids.next == WrappingIncU64(old(ids.next))
  {
    var id := ids.Fetch();
    r := BufferRef(id, usage, size, 0);
  }

  /** `CpuBuffer<T>`; `byteSize` is the `GpuData::byte_size` of `T`. */
  class CpuBuffer<T> {
    const id: u64
    const usage: nat
    const byteSize: T -> nat
    var data: T
    var version: u64
    var size: nat

    /** `new`: version 0, size the data's byte size, the next id. */
    constructor (ids: BufferIdCounter, data: T, usage: nat, byteSize: T -> nat)
      modifies ids
      ensures this.id == old(ids.next) && this.usage == usage && this.byteSize == byteSize
      ensures this.data == data && version == 0 && size == byteSize(data)
      ensures ids.next == WrappingIncU64(old(ids.next))
    {
      var base := NewBufferRef(ids, byteSize(data), usage);
      this.id := base.id;
      this.usage := base.usage;
      this.byteSize := byteSize;
      this.data := data;
      version := 0;
      size := base.size;
    }

    function Version(): (v: u64)
      reads this
      ensures v == version
    {
      version
    }

    function Size(): (n: nat)
      reads this
      ensures n == size
    {
      size
    }

    /** `read`: the data as it is; taking a read guard changes nothing. */
    function Read(): (d: T)
      reads this
      ensures d == data
    {
      data
    }

    /** `handle`: the current id, usage, size and version in one snapshot. */
    function Handle(): (r: BufferRef)
      reads this
      ensures r.id == id && r.usage == usage && r.size == size && r.version == version
    {
      BufferRef(id, usage, size, version)
    }

    /** `write`: a guard that will sync on drop. */
    method Write() returns (g: BufferGuard<T>)
      ensures fresh(g) && g.buffer == this && g.changed
    {
      g := new BufferGuard(this);
    }

    /** `clone`: a new buffer with a copy of the data, so a new id and version 0. */
    method Clone(ids: BufferIdCounter) returns (c: CpuBuffer<T>)
      modifies ids
      ensures fresh(c)
      ensures c.id == old(ids.next) && c.usage == usage && c.byteSize == byteSize
      ensures c.data == data && c.version == 0 && c.size == byteSize(data)
      ensures ids.next == WrappingIncU64(old(ids.next))
      ensures id < old(ids.next) ==> c.id != id
    {
      c := new CpuBuffer(ids, data, usage, byteSize);
    }
  }

  class BufferGuard<T> {
    const buffer: CpuBuffer<T>
    var changed: bool

    constructor (buffer: CpuBuffer<T>)
      ensures this.buffer == buffer && changed
    {
      this.buffer := buffer;
      changed := true;
    }

    /** `skip_sync`: the drop will leave version and size alone. */
    method SkipSync()
      modifies this
      ensures !changed
    {
      changed := false;
    }

    /** Assignment through `DerefMut`. */
    method Set(d: T)
      modifies buffer
      ensures buffer.data == d
      ensures buffer.version == old(buffer.version) && buffer.size == old(buffer.size)
    {
      buffer.data := d;
    }

    /** `Drop`: when still marked changed, version + 1 (wrapping) and the size of the current data. */
    method Drop()
      modifies buffer
      ensures buffer.data == old(buffer.data)
      ensures changed ==> buffer.version == WrappingIncU64(old(buffer.version))
      ensures changed ==> buffer.size == buffer.byteSize(buffer.data)
      ensures !changed ==> buffer.version == old(buffer.version) && buffer.size == old(buffer.size)
    {
      if changed {
        buffer.version := WrappingIncU64(buffer.version);
        buffer.size := buffer.byteSize(buffer.data);
      }
    }
  }

  /** Writing new data and dropping the guard: the data, a version one higher, the new size, the same id. */
  method WriteAndSync<T>(b: CpuBuffer<T>, d: T)
    modifies b
    ensures b.data == d && b.version == WrappingIncU64(old(b.version)) && b.size == b.byteSize(d)
  {
    var g := b.Write();
    g.Set(d);
    g.Drop();
  }

  /** The same write with `skip_sync` first: the data changes but version and size do not. */
  method WriteSkippingSync<T>(b: CpuBuffer<T>, d: T)
    modifies b
    ensures b.data == d && b.version == old(b.version) && b.size == old(b.size)
  {
    var g := b.Write();
    g.Set(d);
    g.SkipSync();
    g.Drop();
  }
}
