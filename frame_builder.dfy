/**
 * The frame builder: render nodes are registered under a stage, each tagged
 * with a wrapping 16-bit insertion counter, and `build` sorts them by
 * (stage order, insertion counter) into a render graph.
 */
module FrameBuilder {
  import opened Wrappers
  import opened Stage
  import opened Sorting
  import opened RenderGraph

  datatype NodeEntry = NodeEntry(stage: RenderStage, order: u16, node: NodeId)

  /** The sort key `(stage.order(), order)`, compared lexicographically. */
  predicate EntryLe(a: NodeEntry, b: NodeEntry)
  {
    Order(a.stage) < Order(b.stage) || (Order(a.stage) == Order(b.stage) && a.order <= b.order)
  }

  lemma EntryLeTotalPreorder()
    ensures TotalPreorder(EntryLe)
  {
  }

  /** One `add_node` on entries `es`: append an entry tagged with the counter. */
  function AddOne(es: seq<NodeEntry>, stage: RenderStage, node: NodeId): seq<NodeEntry>
  {
    es + [NodeEntry(stage, |es| % U16_MODULUS, node)]
  }

  /** `add_node` repeated over `nodes`, in iteration order. */
  function AddAll(es: seq<NodeEntry>, stage: RenderStage, nodes: seq<NodeId>): seq<NodeEntry>
    decreases |nodes|
  {
    if nodes == [] then es else AddAll(AddOne(es, stage, nodes[0]), stage, nodes[1..])
  }

  /** Entries in the order `build` leaves them. */
  function SortedEntries(es: seq<NodeEntry>): seq<NodeEntry>
  {
    SortBy(es, EntryLe)
  }

  function NodesOf(es: seq<NodeEntry>): (r: seq<NodeId>)
    ensures |r| == |es|
    ensures forall i :: 0 <= i < |es| ==> r[i] == es[i].node
  {
    if es == [] then [] else [es[0].node] + NodesOf(es[1..])
  }

  function AnyStage(es: seq<NodeEntry>, stage: RenderStage): (r: bool)
    ensures r <==> exists i :: 0 <= i < |es| && es[i].stage == stage
  {
    if es == [] then false
    else if es[0].stage == stage then true
    else
      assert forall i :: 1 <= i < |es| ==> es[i] == es[1..][i - 1];
      AnyStage(es[1..], stage)
  }

  /** Entries as `add_node` leaves them: entry i carries counter i mod 2^16. */
  ghost predicate Tagged(es: seq<NodeEntry>)
  {
    forall i :: 0 <= i < |es| ==> es[i].order == i % U16_MODULUS
  }

  lemma {:induction false} AddAllTagged(es: seq<NodeEntry>, stage: RenderStage, nodes: seq<NodeId>)
    requires Tagged(es)
    ensures Tagged(AddAll(es, stage, nodes))
    ensures |AddAll(es, stage, nodes)| == |es| + |nodes|
    ensures AddAll(es, stage, nodes)[..|es|] == es
    decreases |nodes|
  {
    if nodes != [] {
      AddAllTagged(AddOne(es, stage, nodes[0]), stage, nodes[1..]);
      var es' := AddOne(es, stage, nodes[0]);
      assert AddAll(es, stage, nodes)[..|es'|][..|es|] == es;
    }
  }

  lemma {:induction false} AddAllSnoc(es: seq<NodeEntry>, stage: RenderStage, nodes: seq<NodeId>, n: NodeId)
    ensures AddAll(es, stage, nodes + [n]) == AddOne(AddAll(es, stage, nodes), stage, n)
    decreases |nodes|
  {
    if nodes == [] {
      assert ([n])[1..] == [];
    } else {
      assert (nodes + [n])[1..] == nodes[1..] + [n];
      AddAllSnoc(AddOne(es, stage, nodes[0]), stage, nodes[1..], n);
    }
  }

  /** `build` orders entries by stage order, and is a permutation of them. */
  lemma BuildSortedPermutation(es: seq<NodeEntry>)
    ensures SortedBy(SortedEntries(es), EntryLe)
    ensures multiset(SortedEntries(es)) == multiset(es)
    ensures multiset(NodesOf(SortedEntries(es))) == multiset(NodesOf(es))
  {
    EntryLeTotalPreorder();
    SortBySorted(es, EntryLe);
    SortByPermutes(es, EntryLe);
    NodesOfMultiset(SortedEntries(es), es);
  }

  lemma {:induction false} NodesOfCons(es: seq<NodeEntry>)
    requires es != []
    ensures multiset(NodesOf(es)) == multiset{es[0].node} + multiset(NodesOf(es[1..]))
  {
    assert NodesOf(es) == [es[0].node] + NodesOf(es[1..]);
  }

  /** The node column of two permutations of entries are permutations too. */
  lemma {:induction false} NodesOfMultiset(a: seq<NodeEntry>, b: seq<NodeEntry>)
    requires multiset(a) == multiset(b)
    ensures multiset(NodesOf(a)) == multiset(NodesOf(b))
    decreases |a|
  {
    if a == [] {
      assert |b| == |multiset(b)| == 0;
    } else {
      var x := a[0];
      assert x in multiset(b);
      var k :| 0 <= k < |b| && b[k] == x;
      var b' := b[..k] + b[k + 1..];
      assert b == b[..k] + [x] + b[k + 1..];
      assert multiset(b) == multiset(b') + multiset{x};
      TailMultiset(a);
      assert multiset(b') == multiset(b) - multiset{x};
      assert multiset(a[1..]) == multiset(b');
      NodesOfMultiset(a[1..], b');
      NodesOfCons(a);
      NodesOfSplit(b[..k], x, b[k + 1..]);
    }
  }

  lemma {:induction false} NodesOfConcat(a: seq<NodeEntry>, b: seq<NodeEntry>)
    ensures NodesOf(a + b) == NodesOf(a) + NodesOf(b)
  {
  }

  lemma NodesOfSplit(p: seq<NodeEntry>, x: NodeEntry, q: seq<NodeEntry>)
    ensures multiset(NodesOf(p + [x] + q)) == multiset(NodesOf(p + q)) + multiset{x.node}
  {
    NodesOfConcat(p + [x], q);
    NodesOfConcat(p, [x]);
    NodesOfConcat(p, q);
  }

  /** Below 2^16 registrations no two entries share a counter value. */
  lemma TaggedOrdersDistinct(es: seq<NodeEntry>, p: nat, q: nat)
    requires Tagged(es) && |es| <= U16_MODULUS
    requires p < |es| && q < |es| && p != q
    ensures es[p].order != es[q].order
  {
  }

  lemma TaggedDistinct(es: seq<NodeEntry>)
    requires Tagged(es) && |es| <= U16_MODULUS
    ensures Distinct(es)
  {
    forall p, q | 0 <= p < q < |es| ensures es[p] != es[q] {
      TaggedOrdersDistinct(es, p, q);
    }
  }

  /**
   * With at most 2^16 registrations the counters are distinct, so the
   * sorted order is strict: by stage, and within one stage by insertion.
   */
  lemma BuildStableWithinStage(es: seq<NodeEntry>, i: nat, j: nat)
    requires Tagged(es) && |es| <= U16_MODULUS
    requires i < j < |es|
    ensures Order(SortedEntries(es)[i].stage) < Order(SortedEntries(es)[j].stage)
         || (SortedEntries(es)[i].stage == SortedEntries(es)[j].stage
             && SortedEntries(es)[i].order < SortedEntries(es)[j].order)
  {
    var s := SortedEntries(es);
    BuildSortedPermutation(es);
    TaggedDistinct(es);
    DistinctPermutation(es, s);
    assert EntryLe(s[i], s[j]);
    assert s[i] != s[j];
    if s[i].order == s[j].order {
      assert s[i] in multiset(es) && s[j] in multiset(es);
      var p :| 0 <= p < |es| && es[p] == s[i];
      var q :| 0 <= q < |es| && es[q] == s[j];
      if p != q {
        TaggedOrdersDistinct(es, p, q);
      }
      assert false;
    }
    OrderInjective(s[i].stage, s[j].stage);
  }

  /** Registration example: A(Opaque), B(UI), C(Opaque) builds as A, C, B. */
  lemma BuildExample(a: NodeId, b: NodeId, c: NodeId)
    ensures NodesOf(SortedEntries(AddOne(AddOne(AddOne([], Opaque, a), UI, b), Opaque, c))) == [a, c, b]
  {
    var es := AddOne(AddOne(AddOne([], Opaque, a), UI, b), Opaque, c);
    assert es == [NodeEntry(Opaque, 0, a), NodeEntry(UI, 1, b), NodeEntry(Opaque, 2, c)];
    assert es[1..][1..] == [NodeEntry(Opaque, 2, c)];
    assert SortBy([NodeEntry(Opaque, 2, c)], EntryLe) == [NodeEntry(Opaque, 2, c)];
    assert !EntryLe(NodeEntry(UI, 1, b), NodeEntry(Opaque, 2, c));
    assert Insert(NodeEntry(UI, 1, b), [], EntryLe) == [NodeEntry(UI, 1, b)];
    assert Insert(NodeEntry(UI, 1, b), [NodeEntry(Opaque, 2, c)], EntryLe)
        == [NodeEntry(Opaque, 2, c), NodeEntry(UI, 1, b)];
    assert SortBy(es[1..], EntryLe) == [NodeEntry(Opaque, 2, c), NodeEntry(UI, 1, b)];
    assert SortedEntries(es) == [NodeEntry(Opaque, 0, a), NodeEntry(Opaque, 2, c), NodeEntry(UI, 1, b)];
  }

  class FrameBuilder {
    var nodes: seq<NodeEntry>
    var nextOrder: u16

    /** The counter always equals the entry count modulo 2^16. */
    ghost predicate Valid()
      reads this
    {
      nextOrder == |nodes| % U16_MODULUS && Tagged(nodes)
    }

    /** `new` / `with_capacity`. */
    constructor ()
      ensures Valid() && nodes == [] && nextOrder == 0
    {
      nodes := [];
      nextOrder := 0;
    }

    /** `add_node`: append one entry tagged with the counter, then bump it. */
    method AddNode(stage: RenderStage, node: NodeId)
      requires Valid()
      modifies this
      ensures Valid()
      ensures nodes == AddOne(old(nodes), stage, node)
      ensures nextOrder == WrappingIncU16(old(nextOrder))
    {
      nodes := nodes + [NodeEntry(stage, nextOrder, node)];
      nextOrder := WrappingIncU16(nextOrder);
    }

    /** `add_nodes`: `add_node` for each node in iteration order. */
    method AddNodes(stage: RenderStage, ns: seq<NodeId>)
      requires Valid()
      modifies this
      ensures Valid()
      ensures nodes == AddAll(old(nodes), stage, ns)
    {
      var i := 0;
      while i < |ns|
        invariant 0 <= i <= |ns|
        invariant Valid()
        invariant nodes == AddAll(old(nodes), stage, ns[..i])
      {
        AddAllSnoc(old(nodes), stage, ns[..i], ns[i]);
        assert ns[..i + 1] == ns[..i] + [ns[i]];
        AddNode(stage, ns[i]);
        i := i + 1;
      }
      assert ns[..i] == ns;
    }

    function NodeCount(): (r: nat)
      reads this
      ensures r == |nodes|
    {
      |nodes|
    }

    /** `has_stage`: some entry was registered under `stage`. */
    function HasStage(stage: RenderStage): (r: bool)
      reads this
      ensures r <==> exists i :: 0 <= i < |nodes| && nodes[i].stage == stage
    {
      AnyStage(nodes, stage)
    }

    /** `clear`: no entries, counter back to 0. */
    method Clear()
      modifies this
      ensures Valid() && nodes == [] && nextOrder == 0
    {
      nodes := [];
      nextOrder := 0;
    }

    /** `build`: sort by (stage, counter), then move the nodes into a graph. */
    method Build() returns (graph: RenderGraph)
      ensures fresh(graph)
      ensures graph.nodes == NodesOf(SortedEntries(nodes))
    {
      var sorted := SortBy(nodes, EntryLe);
      graph := new RenderGraph();
      var i := 0;
      while i < |sorted|
        invariant 0 <= i <= |sorted|
        invariant graph.nodes == NodesOf(sorted[..i])
      {
        NodesOfConcat(sorted[..i], [sorted[i]]);
        assert sorted[..i + 1] == sorted[..i] + [sorted[i]];
        graph.AddNode(sorted[i].node);
        i := i + 1;
      }
      assert sorted[..i] == sorted;
    }
  }
}
