/**
 * A render pass wrapper that remembers the pipeline, bind groups, vertex
 * buffers and index buffer it last set, by resource id, and forwards a
 * `set_*` call to the GPU pass only when the argument differs from what is
 * already bound. The GPU pass is modelled as the list of calls it received.
 */
module Pass {
  import opened Wrappers
  import opened Gpu

  /** A call that reached the underlying GPU render pass. */
  datatype PassCall =
    | SetPipeline(pipeline: Handle)
    | SetBindGroup(index: u32, bindGroup: Handle, offsets: seq<u32>)
    | SetVertexBuffer(slot: u32, slice: Handle)
    | SetIndexBuffer(slice: Handle, format: nat)
    | Draw(vertexStart: u32, vertexEnd: u32, instanceStart: u32, instanceEnd: u32)
    | DrawIndexed(indexStart: u32, indexEnd: u32, baseVertex: int, instanceStart: u32, instanceEnd: u32)

  const MAX_OFFSETS: nat := 8
  const BIND_GROUP_SLOTS: nat := 4
  const VERTEX_BUFFER_SLOTS: nat := 8

  /** What is bound in one bind-group slot: the id and up to eight dynamic offsets. */
  datatype BindGroupState = BindGroupState(id: u64, offsets: seq<u32>, offsetCount: u8)

  /** The state recorded after binding `id` with `offsets`: the offsets copied into a zeroed 8-array. */
  function StateOf(id: u64, offsets: seq<u32>): (s: BindGroupState)
    requires |offsets| <= MAX_OFFSETS
    ensures |s.offsets| == MAX_OFFSETS
  {
    BindGroupState(id, offsets + seq(MAX_OFFSETS - |offsets|, _ => 0), |offsets|)
  }

  /** A slot state that stands for binding `id` with exactly `offsets`. */
  predicate Describes(s: BindGroupState, id: u64, offsets: seq<u32>)
    requires |offsets| <= |s.offsets|
  {
    s.id == id && s.offsetCount == |offsets| && s.offsets[..|offsets|] == offsets
  }

  /** The test `set_bind_group` makes before calling the GPU. */
  function BindGroupNeedsUpdate(current: Option<BindGroupState>, id: u64, offsets: seq<u32>): (r: bool)
    requires |offsets| <= MAX_OFFSETS
    requires current.Some? ==> |current.value.offsets| == MAX_OFFSETS
    ensures r <==> current.None? || !Describes(current.value, id, offsets)
  {
    match current
    case None => true
    case Some(state) =>
      state.id != id || state.offsetCount != |offsets| || state.offsets[..|offsets|] != offsets
  }

  /** The recorded state describes the binding it was made from, so repeating that binding is skipped. */
  lemma StateOfDescribes(id: u64, offsets: seq<u32>)
    requires |offsets| <= MAX_OFFSETS
    ensures Describes(StateOf(id, offsets), id, offsets)
    ensures !BindGroupNeedsUpdate(Some(StateOf(id, offsets)), id, offsets)
  {
    assert StateOf(id, offsets).offsets[..|offsets|] == offsets;
  }

  /** A different id or different offsets always reach the GPU. */
  lemma ChangedBindingNeedsUpdate(id: u64, offsets: seq<u32>, id': u64, offsets': seq<u32>)
    requires |offsets| <= MAX_OFFSETS && |offsets'| <= MAX_OFFSETS
    requires id != id' || offsets != offsets'
    ensures BindGroupNeedsUpdate(Some(StateOf(id, offsets)), id', offsets')
  {
    var s := StateOf(id, offsets);
    assert s.offsets[..|offsets|] == offsets;
  }

  class TrackedRenderPass {
    var calls: seq<PassCall>
    var currentPipelineId: Option<u16>
    var currentBindGroups: array<Option<BindGroupState>>
    var currentVertexBuffers: array<Option<u64>>
    var currentIndexBuffer: Option<u64>

    ghost predicate Valid()
      reads this, currentBindGroups
    {
      && currentBindGroups.Length == BIND_GROUP_SLOTS
      && currentVertexBuffers.Length == VERTEX_BUFFER_SLOTS
      && forall i :: 0 <= i < BIND_GROUP_SLOTS && currentBindGroups[i].Some? ==>
        |currentBindGroups[i].value.offsets| == MAX_OFFSETS
    }

    /** Nothing is assumed bound. */
    ghost predicate Invalidated()
      reads this, currentBindGroups, currentVertexBuffers
    {
      && currentPipelineId.None? && currentIndexBuffer.None?
      && (forall i :: 0 <= i < currentBindGroups.Length ==> currentBindGroups[i].None?)
      && (forall i :: 0 <= i < currentVertexBuffers.Length ==> currentVertexBuffers[i].None?)
    }

    /** `new`: wraps a fresh GPU pass with nothing bound. */
    constructor ()
      ensures Valid() && Invalidated() && calls == []
      ensures fresh(currentBindGroups) && fresh(currentVertexBuffers)
    {
      calls := [];
      currentPipelineId := None;
      currentBindGroups := new Option<BindGroupState>[BIND_GROUP_SLOTS](_ => None);
      currentVertexBuffers := new Option<u64>[VERTEX_BUFFER_SLOTS](_ => None);
      currentIndexBuffer := None;
    }

    method SetPipeline(pipelineResourceId: u16, pipeline: Handle)
      modifies this
      ensures currentPipelineId == Some(pipelineResourceId)
      ensures calls == old(calls) + (if old(currentPipelineId) == Some(pipelineResourceId) then [] else [PassCall.SetPipeline(pipeline)])
      ensures currentBindGroups == old(currentBindGroups) && currentVertexBuffers == old(currentVertexBuffers)
      ensures currentIndexBuffer == old(currentIndexBuffer)
    {
      if currentPipelineId != Some(pipelineResourceId) {
        calls := calls + [PassCall.SetPipeline(pipeline)];
        currentPipelineId := Some(pipelineResourceId);
      }
    }

    /** `index` must name one of the four slots; wgpu allows at most eight dynamic offsets. */
    method SetBindGroup(index: u32, bindGroupResourceId: u64, bindGroup: Handle, offsets: seq<u32>)
      requires Valid()
      requires index < BIND_GROUP_SLOTS && |offsets| <= MAX_OFFSETS
      modifies this, currentBindGroups
      ensures Valid()
      ensures currentBindGroups == old(currentBindGroups) && currentVertexBuffers == old(currentVertexBuffers)
      ensures currentPipelineId == old(currentPipelineId) && currentIndexBuffer == old(currentIndexBuffer)
      ensures var needs := BindGroupNeedsUpdate(old(currentBindGroups[index]), bindGroupResourceId, offsets);
        && calls == old(calls) + (if needs then [PassCall.SetBindGroup(index, bindGroup, offsets)] else [])
        && currentBindGroups[index] == (if needs then Some(StateOf(bindGroupResourceId, offsets)) else old(currentBindGroups[index]))
      ensures currentBindGroups[index].Some? && Describes(currentBindGroups[index].value, bindGroupResourceId, offsets)
      ensures forall i :: 0 <= i < BIND_GROUP_SLOTS && i != index ==> currentBindGroups[i] == old(currentBindGroups[i])
    {
      var needsUpdate := BindGroupNeedsUpdate(currentBindGroups[index], bindGroupResourceId, offsets);
      if needsUpdate {
        calls := calls + [PassCall.SetBindGroup(index, bindGroup, offsets)];
        var state := StateOf(bindGroupResourceId, offsets);
        StateOfDescribes(bindGroupResourceId, offsets);
        currentBindGroups[index] := Some(state);
      }
    }

    method SetVertexBuffer(slot: u32, bufferResourceId: u64, bufferSlice: Handle)
      requires Valid()
      requires slot < VERTEX_BUFFER_SLOTS
      modifies this, currentVertexBuffers
      ensures Valid()
      ensures currentBindGroups == old(currentBindGroups) && currentVertexBuffers == old(currentVertexBuffers)
      ensures currentPipelineId == old(currentPipelineId) && currentIndexBuffer == old(currentIndexBuffer)
      ensures currentVertexBuffers[slot] == Some(bufferResourceId)
      ensures calls == old(calls) + (if old(currentVertexBuffers[slot]) == Some(bufferResourceId) then [] else [PassCall.SetVertexBuffer(slot, bufferSlice)])
      ensures forall i :: 0 <= i < VERTEX_BUFFER_SLOTS && i != slot ==> currentVertexBuffers[i] == old(currentVertexBuffers[i])
    {
      if currentVertexBuffers[slot] != Some(bufferResourceId) {
        calls := calls + [PassCall.SetVertexBuffer(slot, bufferSlice)];
        currentVertexBuffers[slot] := Some(bufferResourceId);
      }
    }

    method SetIndexBuffer(bufferResourceId: u64, bufferSlice: Handle, format: nat)
      modifies this
      ensures currentIndexBuffer == Some(bufferResourceId)
      ensures calls == old(calls) + (if old(currentIndexBuffer) == Some(bufferResourceId) then [] else [PassCall.SetIndexBuffer(bufferSlice, format)])
      ensures currentBindGroups == old(currentBindGroups) && currentVertexBuffers == old(currentVertexBuffers)
      ensures currentPipelineId == old(currentPipelineId)
    {
      if currentIndexBuffer != Some(bufferResourceId) {
        calls := calls + [PassCall.SetIndexBuffer(bufferSlice, format)];
        currentIndexBuffer := Some(bufferResourceId);
      }
    }

    /** Draws always reach the GPU and change no tracked state. */
    method Draw(vertexStart: u32, vertexEnd: u32, instanceStart: u32, instanceEnd: u32)
      modifies this
      ensures calls == old(calls) + [PassCall.Draw(vertexStart, vertexEnd, instanceStart, instanceEnd)]
      ensures currentPipelineId == old(currentPipelineId) && currentIndexBuffer == old(currentIndexBuffer)
      ensures currentBindGroups == old(currentBindGroups) && currentVertexBuffers == old(currentVertexBuffers)
    {
      calls := calls + [PassCall.Draw(vertexStart, vertexEnd, instanceStart, instanceEnd)];
    }

    method DrawIndexed(indexStart: u32, indexEnd: u32, baseVertex: int, instanceStart: u32, instanceEnd: u32)
      requires -0x8000_0000 <= baseVertex < 0x8000_0000
      modifies this
      ensures calls == old(calls) + [PassCall.DrawIndexed(indexStart, indexEnd, baseVertex, instanceStart, instanceEnd)]
      ensures currentPipelineId == old(currentPipelineId) && currentIndexBuffer == old(currentIndexBuffer)
      ensures currentBindGroups == old(currentBindGroups) && currentVertexBuffers == old(currentVertexBuffers)
    {
      calls := calls + [PassCall.DrawIndexed(indexStart, indexEnd, baseVertex, instanceStart, instanceEnd)];
    }

    /** `invalidate_state`: forget everything, so every next `set_*` reaches the GPU. */
    method InvalidateState()
      requires Valid()
      modifies this, currentBindGroups, currentVertexBuffers
      ensures Valid() && Invalidated()
      ensures calls == old(calls)
      ensures currentBindGroups == old(currentBindGroups) && currentVertexBuffers == old(currentVertexBuffers)
    {
      currentPipelineId := None;
      forall i | 0 <= i < currentBindGroups.Length {
        currentBindGroups[i] := None;
      }
      forall i | 0 <= i < currentVertexBuffers.Length {
        currentVertexBuffers[i] := None;
      }
      currentIndexBuffer := None;
    }
  }

  /**
   * From a pass with nothing bound, each `set_*` call issues one GPU call,
   * whatever its arguments.
   */
  method AfterInvalidateEverySetIssues(
    p: TrackedRenderPass, pipelineId: u16, pipeline: Handle,
    index: u32, groupId: u64, group: Handle, offsets: seq<u32>,
    slot: u32, bufferId: u64, slice: Handle, indexBufferId: u64, format: nat)
    requires p.Valid()
    requires index < BIND_GROUP_SLOTS && |offsets| <= MAX_OFFSETS && slot < VERTEX_BUFFER_SLOTS
    modifies p, p.currentBindGroups, p.currentVertexBuffers
    ensures p.calls == old(p.calls) + [PassCall.SetPipeline(pipeline), PassCall.SetBindGroup(index, group, offsets), PassCall.SetVertexBuffer(slot, slice), PassCall.SetIndexBuffer(slice, format)]
  {
    p.InvalidateState();
    p.SetPipeline(pipelineId, pipeline);
    p.SetBindGroup(index, groupId, group, offsets);
    p.SetVertexBuffer(slot, bufferId, slice);
    p.SetIndexBuffer(indexBufferId, slice, format);
  }
}
