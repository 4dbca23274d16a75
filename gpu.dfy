/**
 * The GPU device, reduced to what the engine's bookkeeping can observe:
 * every object it creates (texture, view, pipeline, bind group, buffer)
 * comes back as a handle distinct from every earlier one.
 */
module Gpu {
  type Handle = nat

  class Device {
    var next: Handle

    constructor ()
      ensures next == 0
    {
      next := 0;
    }

    /** Creates one GPU object and returns its handle. */
    method Create() returns (h: Handle)
      modifies this
      ensures h == old(next) && next == old(next) + 1
    {
      h := next;
      next := next + 1;
    }
  }
}
