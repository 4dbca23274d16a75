/**
 * The frame composer: collects render nodes through the frame builder and,
 * in `render`, runs one frame as a fixed sequence of steps: acquire the
 * surface, build the sorted graph, prepare every node, execute every node,
 * present, and return the transient textures to the pool.
 */
module Composer {
  import opened Stage
  import opened RenderGraph
  import opened FrameBuilder
  import opened TransientPool
  import opened Gpu

  /** The events one call of `render` produces, given whether the surface was acquired. */
  function FrameEvents(surfaceOk: bool, nodes: seq<NodeId>): seq<Event>
  {
    if !surfaceOk then [SurfaceLost]
    else [SurfaceAcquired, PrepareContextCreated(0)] + PrepareEvents(nodes) + ExecuteEvents(nodes) + [Presented, PoolReset]
  }

  predicate IsNodeWork(e: Event)
  {
    e.Prepared? || e.Ran?
  }

  /** A lost surface ends the frame before any node is touched and before the pool is reset. */
  lemma {:induction false} LostSurfaceDoesNothing(nodes: seq<NodeId>)
    ensures forall k :: 0 <= k < |FrameEvents(false, nodes)| ==>
      !IsNodeWork(FrameEvents(false, nodes)[k]) && FrameEvents(false, nodes)[k] != PoolReset
    ensures CountEvent(FrameEvents(false, nodes), PoolReset) == 0
  {
    assert FrameEvents(false, nodes) == [SurfaceLost];
    assert [SurfaceLost][1..] == [];
  }

  /** Where each part of a rendered frame sits in its event list. */
  lemma FrameLayout(nodes: seq<NodeId>)
    ensures var ev := FrameEvents(true, nodes); var n := |nodes|;
      && |ev| == 2 * n + 5
      && ev[0] == SurfaceAcquired
      && ev[1] == PrepareContextCreated(0)
      && (forall i :: 0 <= i < n ==> ev[2 + i] == Prepared(nodes[i]))
      && (forall i :: 0 <= i < n ==> ev[2 + n + i] == Ran(nodes[i]))
      && ev[2 + 2 * n] == Submitted
      && ev[3 + 2 * n] == Presented
      && ev[4 + 2 * n] == PoolReset
  {
    ExecuteSubmitsOnceAtEnd(nodes);
  }

  /** Every `prepare` of a rendered frame comes before every `run`. */
  lemma PrepareAllBeforeExecuteAny(nodes: seq<NodeId>, i: nat, j: nat)
    requires i < |FrameEvents(true, nodes)| && j < |FrameEvents(true, nodes)|
    requires FrameEvents(true, nodes)[i].Prepared? && FrameEvents(true, nodes)[j].Ran?
    ensures i < j
  {
    FrameLayout(nodes);
  }

  /** The ping-pong counter is created once per frame, at 0, before any node is prepared. */
  lemma FlipFlopStartsAtZero(nodes: seq<NodeId>, i: nat)
    requires i < |FrameEvents(true, nodes)| && FrameEvents(true, nodes)[i].PrepareContextCreated?
    ensures i == 1 && FrameEvents(true, nodes)[i].colorViewFlipFlop == 0
  {
    FrameLayout(nodes);
  }

  lemma {:induction false} CountEventPrepare(nodes: seq<NodeId>, e: Event)
    requires !e.Prepared?
    ensures CountEvent(PrepareEvents(nodes), e) == 0
  {
    if nodes != [] {
      CountEventPrepare(nodes[1..], e);
    }
  }

  lemma {:induction false} CountEventRun(nodes: seq<NodeId>, e: Event)
    requires !e.Ran?
    ensures CountEvent(RunEvents(nodes), e) == 0
  {
    if nodes != [] {
      CountEventRun(nodes[1..], e);
    }
  }

  /** The pool is reset exactly once per rendered frame, as its last step, right after present. */
  lemma PoolResetOncePerFrame(nodes: seq<NodeId>)
    ensures CountEvent(FrameEvents(true, nodes), PoolReset) == 1
    ensures CountEvent(FrameEvents(true, nodes), Presented) == 1
    ensures var ev := FrameEvents(true, nodes);
      ev[|ev| - 1] == PoolReset && ev[|ev| - 2] == Presented
  {
    FrameLayout(nodes);
    var head := [SurfaceAcquired, PrepareContextCreated(0)];
    var tail := [Presented, PoolReset];
    CountEventPrepare(nodes, PoolReset);
    CountEventPrepare(nodes, Presented);
    CountEventRun(nodes, PoolReset);
    CountEventRun(nodes, Presented);
    CountEventAppend(RunEvents(nodes), [Submitted], PoolReset);
    CountEventAppend(RunEvents(nodes), [Submitted], Presented);
    CountEventAppend(head, PrepareEvents(nodes), PoolReset);
    CountEventAppend(head + PrepareEvents(nodes), ExecuteEvents(nodes), PoolReset);
    CountEventAppend(head + PrepareEvents(nodes) + ExecuteEvents(nodes), tail, PoolReset);
    CountEventAppend(head, PrepareEvents(nodes), Presented);
    CountEventAppend(head + PrepareEvents(nodes), ExecuteEvents(nodes), Presented);
    CountEventAppend(head + PrepareEvents(nodes) + ExecuteEvents(nodes), tail, Presented);
    assert head[1..][1..] == [];
    assert tail[1..][1..] == [];
    assert [Submitted][1..] == [];
  }

  lemma FrameEventsSplit(e0: seq<Event>, nodes: seq<NodeId>, e1: seq<Event>, e2: seq<Event>, e3: seq<Event>, e4: seq<Event>)
    requires e1 == e0 + [SurfaceAcquired] + [PrepareContextCreated(0)]
    requires e2 == e1 + PrepareEvents(nodes)
    requires e3 == e2 + ExecuteEvents(nodes)
    requires e4 == e3 + [Presented] + [PoolReset]
    ensures e4 == e0 + FrameEvents(true, nodes)
  {
    Regroup(e0, PrepareEvents(nodes), ExecuteEvents(nodes));
  }

  lemma Regroup(e0: seq<Event>, p: seq<Event>, x: seq<Event>)
    ensures e0 + [SurfaceAcquired] + [PrepareContextCreated(0)] + p + x + [Presented] + [PoolReset]
      == e0 + ([SurfaceAcquired, PrepareContextCreated(0)] + p + x + [Presented, PoolReset])
  {
  }

  class FrameComposer {
    var builder: FrameBuilder

    constructor (builder: FrameBuilder)
      ensures this.builder == builder
    {
      this.builder := builder;
    }

    /** `add_node`: forwards to the builder. */
    method AddNode(stage: RenderStage, node: NodeId)
      requires builder.Valid()
      modifies builder
      ensures builder.Valid()
      ensures builder.nodes == AddOne(old(builder.nodes), stage, node)
    {
      builder.AddNode(stage, node);
    }

    /** `add_nodes`: forwards to the builder. */
    method AddNodes(stage: RenderStage, ns: seq<NodeId>)
      requires builder.Valid()
      modifies builder
      ensures builder.Valid()
      ensures builder.nodes == AddAll(old(builder.nodes), stage, ns)
    {
      builder.AddNodes(stage, ns);
    }

    /**
     * `render`: `surfaceOk` is the outcome of acquiring the surface texture.
     * The graph runs in the builder's (stage, insertion) order.
     */
    method Render(surfaceOk: bool, log: CommandLog, pool: TransientTexturePool, ghost device: Device)
      requires pool.Valid(device)
      modifies log, pool
      ensures log.events == old(log.events) + FrameEvents(surfaceOk, NodesOf(SortedEntries(builder.nodes)))
      ensures pool.Valid(device)
      ensures surfaceOk ==> pool.active == [] && pool.free == ResetAll(old(pool.free), old(pool.active))
      ensures !surfaceOk ==> pool.active == old(pool.active) && pool.free == old(pool.free)
    {
      if !surfaceOk {
        log.Record(SurfaceLost);
        return;
      }
      ghost var e0 := log.events;
      log.Record(SurfaceAcquired);
      var graph := builder.Build();
      ghost var nodes := graph.nodes;
      log.Record(PrepareContextCreated(0));
      ghost var e1 := log.events;
      graph.Prepare(log);
      ghost var e2 := log.events;
      graph.Execute(log);
      ghost var e3 := log.events;
      log.Record(Presented);
      pool.Reset(device);
      log.Record(PoolReset);
      FrameEventsSplit(e0, nodes, e1, e2, e3, log.events);
    }
  }
}
