/**
 * The per-frame render graph: an ordered list of render nodes, a prepare
 * pass over every node and an execute pass that records every node into
 * one command encoder and submits it once. Nodes are opaque identifiers;
 * what a node does inside `prepare` and `run` is foreign GPU work, so the
 * model records the calls as events in a command log.
 */
module RenderGraph {
  /** A render node, identified by an opaque handle. */
  type NodeId = nat

  /** What the frame asks of nodes and of the GPU queue, in order. */
  datatype Event =
    | SurfaceAcquired
    | SurfaceLost
    | PrepareContextCreated(colorViewFlipFlop: nat)
    | Prepared(node: NodeId)
    | Ran(node: NodeId)
    | Submitted
    | Presented
    | PoolReset

  /** The observable side of the GPU device and queue. */
  class CommandLog {
    var events: seq<Event>

    constructor ()
      ensures events == []
    {
      events := [];
    }

    method Record(e: Event)
      modifies this
      ensures events == old(events) + [e]
    {
      events := events + [e];
    }
  }

  function PrepareEvents(nodes: seq<NodeId>): (r: seq<Event>)
    ensures |r| == |nodes|
    ensures forall i :: 0 <= i < |nodes| ==> r[i] == Prepared(nodes[i])
  {
    if nodes == [] then [] else [Prepared(nodes[0])] + PrepareEvents(nodes[1..])
  }

  function RunEvents(nodes: seq<NodeId>): (r: seq<Event>)
    ensures |r| == |nodes|
    ensures forall i :: 0 <= i < |nodes| ==> r[i] == Ran(nodes[i])
  {
    if nodes == [] then [] else [Ran(nodes[0])] + RunEvents(nodes[1..])
  }

  /** One `execute`: every node runs into the encoder, then one submit. */
  function ExecuteEvents(nodes: seq<NodeId>): seq<Event>
  {
    RunEvents(nodes) + [Submitted]
  }

  function CountEvent(events: seq<Event>, e: Event): nat
  {
    if events == [] then 0 else (if events[0] == e then 1 else 0) + CountEvent(events[1..], e)
  }

  lemma {:induction false} CountEventAppend(a: seq<Event>, b: seq<Event>, e: Event)
    ensures CountEvent(a + b, e) == CountEvent(a, e) + CountEvent(b, e)
  {
    if a == [] {
      assert a + b == b;
    } else {
      assert (a + b)[1..] == a[1..] + b;
      CountEventAppend(a[1..], b, e);
    }
  }

  lemma {:induction false} NoSubmitWhileRunning(nodes: seq<NodeId>)
    ensures CountEvent(RunEvents(nodes), Submitted) == 0
  {
    if nodes != [] {
      NoSubmitWhileRunning(nodes[1..]);
    }
  }

  /**
   * `execute` runs every stored node once, in stored order, and submits
   * exactly once, after the last node has run.
   */
  lemma ExecuteSubmitsOnceAtEnd(nodes: seq<NodeId>)
    ensures |ExecuteEvents(nodes)| == |nodes| + 1
    ensures forall i :: 0 <= i < |nodes| ==> ExecuteEvents(nodes)[i] == Ran(nodes[i])
    ensures ExecuteEvents(nodes)[|nodes|] == Submitted
    ensures CountEvent(ExecuteEvents(nodes), Submitted) == 1
  {
    NoSubmitWhileRunning(nodes);
    CountEventAppend(RunEvents(nodes), [Submitted], Submitted);
    assert CountEvent([Submitted], Submitted) == 1 by {
      assert [Submitted][1..] == [];
    }
  }

  lemma MultisetCons(nodes: seq<NodeId>, n: NodeId)
    requires nodes != []
    ensures multiset(nodes)[n] == (if nodes[0] == n then 1 else 0) + multiset(nodes[1..])[n]
  {
    assert nodes == [nodes[0]] + nodes[1..];
  }

  /** Every node is prepared as often as it occurs in the graph. */
  lemma {:induction false} EachNodePreparedOncePerOccurrence(nodes: seq<NodeId>, n: NodeId)
    ensures CountEvent(PrepareEvents(nodes), Prepared(n)) == multiset(nodes)[n]
  {
    if nodes != [] {
      var r := PrepareEvents(nodes);
      assert r[0] == Prepared(nodes[0]);
      assert r[1..] == PrepareEvents(nodes[1..]);
      EachNodePreparedOncePerOccurrence(nodes[1..], n);
      MultisetCons(nodes, n);
    }
  }

  /** Every node runs as often as it occurs in the graph. */
  lemma {:induction false} EachNodeRunsOncePerOccurrence(nodes: seq<NodeId>, n: NodeId)
    ensures CountEvent(RunEvents(nodes), Ran(n)) == multiset(nodes)[n]
  {
    if nodes != [] {
      var r := RunEvents(nodes);
      assert r[0] == Ran(nodes[0]);
      assert r[1..] == RunEvents(nodes[1..]);
      EachNodeRunsOncePerOccurrence(nodes[1..], n);
      MultisetCons(nodes, n);
    }
  }

  class RenderGraph {
    var nodes: seq<NodeId>

    /** `new` and `with_capacity`: an empty graph. */
    constructor ()
      ensures nodes == []
    {
      nodes := [];
    }

    method AddNode(node: NodeId)
      modifies this
      ensures nodes == old(nodes) + [node]
    {
      nodes := nodes + [node];
    }

    function NodeCount(): (r: nat)
      reads this
      ensures r == |nodes|
    {
      |nodes|
    }

    /** `prepare`: calls every node's `prepare`, in stored order. */
    method Prepare(log: CommandLog)
      modifies log
      ensures log.events == old(log.events) + PrepareEvents(nodes)
    {
      var i := 0;
      while i < |nodes|
        invariant 0 <= i <= |nodes|
        invariant log.events == old(log.events) + PrepareEvents(nodes[..i])
      {
        log.Record(Prepared(nodes[i]));
        PrepareEventsSnoc(nodes[..i], nodes[i]);
        assert nodes[..i + 1] == nodes[..i] + [nodes[i]];
        i := i + 1;
      }
      assert nodes[..i] == nodes;
    }

    /** `execute`: records every node into one encoder, then submits it. */
    method Execute(log: CommandLog)
      modifies log
      ensures log.events == old(log.events) + ExecuteEvents(nodes)
    {
      var i := 0;
      while i < |nodes|
        invariant 0 <= i <= |nodes|
        invariant log.events == old(log.events) + RunEvents(nodes[..i])
      {
        log.Record(Ran(nodes[i]));
        RunEventsSnoc(nodes[..i], nodes[i]);
        assert nodes[..i + 1] == nodes[..i] + [nodes[i]];
        i := i + 1;
      }
      assert nodes[..i] == nodes;
      log.Record(Submitted);
    }
  }

  lemma PrepareEventsSnoc(ns: seq<NodeId>, n: NodeId)
    ensures PrepareEvents(ns + [n]) == PrepareEvents(ns) + [Prepared(n)]
  {
  }

  lemma RunEventsSnoc(ns: seq<NodeId>, n: NodeId)
    ensures RunEvents(ns + [n]) == RunEvents(ns) + [Ran(n)]
  {
  }
}
